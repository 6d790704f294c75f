/** The gas automaton of sources/core/atmos on values: cells, the averaging of one
    neighbourhood, the end-of-tick pass, and the blocked layout of the cell array.
    Amounts are mathematical integers; C++ division is written out.
 */
module AtmosModel {

  import opened Arithmetic
  import opened CppInt

  const GASES_NUM := 4
  const OXYGEN := 0
  const CO2 := 1
  const NYTROGEN := 2
  const PLASMA := 3
  const GASES_FREEDOM: Four := [5, 6, 5, 8]
  const ENERGY_CONST := 100
  const O2_MULTIPLIER := 2
  const ENERGY_MULTIPLIER := 4
  const BURN_SCALE := 32

  const DIRS_SIZE := 4
  const CELL_GROUP_SIZE := 32
  const STAGES_AMOUNT := 5

  type Four = s: seq<int> | |s| == 4 witness [0, 0, 0, 0]

  datatype Flag = UpBlock | DownBlock | LeftBlock | RightBlock | CenterBlock | SpaceTile | NoObjects

  /** Directions are 0 west, 1 north, 2 south, 3 east; 3 - d is the opposite of d. */
  const DIRS := [LeftBlock, UpBlock, DownBlock, RightBlock]

  datatype Cell = Cell(
    gases: Four, energy: int, pressure: int, volume: int, temperature: int, fire: bool,
    flows: Four, flags: set<Flag>)

  predicate IsPassable(c: Cell, f: Flag) {
    f !in c.flags
  }

  type Grid = seq<Cell>

  function Sum4(s: Four): int {
    s[0] + s[1] + s[2] + s[3]
  }

  // ----- one neighbourhood

  /** A centre and its four neighbours, as places in the cell array. */
  predicate Star(g: Grid, c: nat, nb: seq<nat>) {
    && c < |g| && |nb| == 4
    && (forall d :: 0 <= d < 4 ==> nb[d] < |g| && nb[d] != c)
    && (forall d, k :: 0 <= d < k < 4 ==> nb[d] != nb[k])
  }

  /** Gas moves over the edge in direction `d`: neither side blocks it and the neighbour is not solid. */
  predicate Open(g: Grid, c: nat, nb: seq<nat>, d: nat)
    requires Star(g, c, nb) && d < 4
  {
    && IsPassable(g[c], DIRS[d])
    && IsPassable(g[nb[d]], DIRS[3 - d])
    && IsPassable(g[nb[d]], CenterBlock)
  }

  /** Gas `k` of a cell for k < 4, its energy for k == 4. */
  function Amount(c: Cell, k: nat): int
    requires k <= 4
  {
    if k < 4 then c.gases[k] else c.energy
  }

  /** The sum of one amount over the open neighbours below `d` and the centre. */
  function Gathered(g: Grid, c: nat, nb: seq<nat>, k: nat, d: nat): int
    requires Star(g, c, nb) && k <= 4 && d <= 4
  {
    if d == 0 then 0
    else Gathered(g, c, nb, k, d - 1) + if Open(g, c, nb, d - 1) then Amount(g[nb[d - 1]], k) else 0
  }

  function Total(g: Grid, c: nat, nb: seq<nat>, k: nat): int
    requires Star(g, c, nb) && k <= 4
  {
    Gathered(g, c, nb, k, 4) + Amount(g[c], k)
  }

  function Degree(g: Grid, c: nat, nb: seq<nat>, d: nat): nat
    requires Star(g, c, nb) && d <= 4
  {
    if d == 0 then 0 else Degree(g, c, nb, d - 1) + if Open(g, c, nb, d - 1) then 1 else 0
  }

  function NearSize(g: Grid, c: nat, nb: seq<nat>): (n: nat)
    requires Star(g, c, nb)
    ensures n >= 1
  {
    Degree(g, c, nb, 4) + 1
  }

  function Average(g: Grid, c: nat, nb: seq<nat>, k: nat): int
    requires Star(g, c, nb) && k <= 4
  {
    Div(Total(g, c, nb, k), NearSize(g, c, nb))
  }

  function Remains(g: Grid, c: nat, nb: seq<nat>, k: nat): int
    requires Star(g, c, nb) && k <= 4
  {
    Mod(Total(g, c, nb, k), NearSize(g, c, nb))
  }

  /** Whether the neighbourhood burns: someone does, and there is plasma and oxygen. */
  predicate Burns(g: Grid, c: nat, nb: seq<nat>)
    requires Star(g, c, nb)
  {
    && (g[c].fire || exists d :: 0 <= d < 4 && Open(g, c, nb, d) && g[nb[d]].fire)
    && Total(g, c, nb, PLASMA) != 0 && Total(g, c, nb, OXYGEN) != 0
  }

  function Averages(g: Grid, c: nat, nb: seq<nat>): Four
    requires Star(g, c, nb)
  {
    [Average(g, c, nb, 0), Average(g, c, nb, 1), Average(g, c, nb, 2), Average(g, c, nb, 3)]
  }

  /** What flows into the neighbour in direction `d`. */
  function Inflow(g: Grid, c: nat, nb: seq<nat>, d: nat): int
    requires Star(g, c, nb) && d < 4
  {
    Sum4(Averages(g, c, nb)) - Sum4(g[nb[d]].gases)
  }

  function NearCell(g: Grid, c: nat, nb: seq<nat>, d: nat): Cell
    requires Star(g, c, nb) && d < 4
  {
    var near := g[nb[d]];
    near.(gases := Averages(g, c, nb), energy := Average(g, c, nb, 4), fire := Burns(g, c, nb),
          flows := near.flows[3 - d := near.flows[3 - d] + Inflow(g, c, nb, d)])
  }

  function Outflow(g: Grid, c: nat, nb: seq<nat>, d: nat): int
    requires Star(g, c, nb) && d < 4
  {
    if Open(g, c, nb, d) then -Inflow(g, c, nb, d) else 0
  }

  function CentreCell(g: Grid, c: nat, nb: seq<nat>): Cell
    requires Star(g, c, nb)
  {
    var f := g[c].flows;
    g[c].(gases := [Average(g, c, nb, 0) + Remains(g, c, nb, 0), Average(g, c, nb, 1) + Remains(g, c, nb, 1),
                    Average(g, c, nb, 2) + Remains(g, c, nb, 2), Average(g, c, nb, 3) + Remains(g, c, nb, 3)],
          energy := Average(g, c, nb, 4) + Remains(g, c, nb, 4),
          fire := Burns(g, c, nb),
          flows := [f[0] + Outflow(g, c, nb, 0), f[1] + Outflow(g, c, nb, 1),
                    f[2] + Outflow(g, c, nb, 2), f[3] + Outflow(g, c, nb, 3)])
  }

  /** The grid after the neighbours below `d` were given their share. */
  function Spread(g: Grid, c: nat, nb: seq<nat>, d: nat): (r: Grid)
    requires Star(g, c, nb) && d <= 4
    ensures |r| == |g|
  {
    if d == 0 then g
    else
      var r := Spread(g, c, nb, d - 1);
      if Open(g, c, nb, d - 1) then r[nb[d - 1] := NearCell(g, c, nb, d - 1)] else r
  }

  /** One visit of a centre: nothing if it is solid, else its open neighbourhood is averaged and the
      remainder stays with it. */
  function VisitAt(g: Grid, c: nat, nb: seq<nat>): (r: Grid)
    requires Star(g, c, nb)
    ensures |r| == |g|
  {
    if !IsPassable(g[c], CenterBlock) then g else Spread(g, c, nb, 4)[c := CentreCell(g, c, nb)]
  }

  // ----- the end of a tick

  function Burn(c: Cell): Cell {
    if !c.fire then c
    else
      var half := Div(c.gases[OXYGEN], O2_MULTIPLIER);
      var maxBurn := if half < c.gases[PLASMA] then half else c.gases[PLASMA];
      if maxBurn == 0 then c.(fire := false)
      else
        var scaled := Div(maxBurn, BURN_SCALE);
        var wanted := if 1 < scaled then scaled else 1;
        var burn := if maxBurn < wanted then maxBurn else wanted;
        c.(gases := c.gases[OXYGEN := c.gases[OXYGEN] - burn * O2_MULTIPLIER]
                           [PLASMA := c.gases[PLASMA] - burn]
                           [CO2 := c.gases[CO2] + burn],
           energy := c.energy + burn * ENERGY_MULTIPLIER)
  }

  function Vent(c: Cell): Cell {
    if SpaceTile !in c.flags then c
    else c.(gases := [Div(c.gases[0] * 4, 5), Div(c.gases[1] * 4, 5), Div(c.gases[2] * 4, 5), Div(c.gases[3] * 4, 5)],
            energy := Div(c.energy * 4, 5))
  }

  function Freedom(c: Cell): int {
    c.gases[0] * GASES_FREEDOM[0] + c.gases[1] * GASES_FREEDOM[1]
    + c.gases[2] * GASES_FREEDOM[2] + c.gases[3] * GASES_FREEDOM[3]
  }

  function Macro(c: Cell): Cell {
    var sum := Div(Freedom(c), 2);
    var temperature := if sum == 0 then 0 else Div(c.energy * ENERGY_CONST, sum);
    c.(temperature := temperature,
       pressure := if c.volume == 0 then 0 else Div(Sum4(c.gases) * temperature, c.volume))
  }

  function FinalCell(c: Cell): Cell {
    Macro(Burn(Vent(c)))
  }

  function Finalize(g: Grid): (r: Grid)
    ensures |r| == |g|
  {
    seq(|g|, i requires 0 <= i < |g| => FinalCell(g[i]))
  }

  /** The flow reset of ProcessTileMove, on every tile. */
  function ResetFlows(g: Grid): (r: Grid)
    ensures |r| == |g|
  {
    seq(|g|, i requires 0 <= i < |g| => g[i].(flows := [0, 0, 0, 0]))
  }

  // ----- layout

  /** A grid of 32 by 32 groups. */
  datatype Dims = Dims(groupsX: nat, groupsY: nat) {
    predicate Valid() { groupsX >= 1 && groupsY >= 1 }
    function Width(): nat { groupsX * CELL_GROUP_SIZE }
    function Height(): nat { groupsY * CELL_GROUP_SIZE }
  }

  /** The length of the cell array. */
  function Size(d: Dims): nat { d.Width() * d.Height() }

  datatype Pos = Pos(x: int, y: int)

  predicate InGrid(d: Dims, p: Pos) {
    0 <= p.x < d.Width() && 0 <= p.y < d.Height()
  }

  /** Cells off the outer frame: the only ones that are ever a centre. */
  predicate Inner(d: Dims, p: Pos) {
    1 <= p.x < d.Width() - 1 && 1 <= p.y < d.Height() - 1
  }

  /** AtmosGrid::At: group after group, column after column. */
  function At(d: Dims, p: Pos): int {
    (p.y / CELL_GROUP_SIZE + p.x / CELL_GROUP_SIZE * d.groupsY) * CELL_GROUP_SIZE * CELL_GROUP_SIZE
    + p.y % CELL_GROUP_SIZE + p.x % CELL_GROUP_SIZE * CELL_GROUP_SIZE
  }

  /** AtmosGrid::Get by direction number. */
  function Near(p: Pos, d: nat): Pos
    requires d < 4
  {
    if d == 0 then Pos(p.x - 1, p.y)
    else if d == 1 then Pos(p.x, p.y - 1)
    else if d == 2 then Pos(p.x, p.y + 1)
    else Pos(p.x + 1, p.y)
  }

  /** The place an array index stands for. */
  function Where(d: Dims, i: nat): Pos
    requires d.Valid()
  {
    var group, rest := i / 1024, i % 1024;
    Pos(group / d.groupsY * CELL_GROUP_SIZE + rest / CELL_GROUP_SIZE,
        group % d.groupsY * CELL_GROUP_SIZE + rest % CELL_GROUP_SIZE)
  }

  lemma DivModUnique(a: int, b: int, n: int)
    requires n > 0 && 0 <= b < n
    ensures (b + a * n) / n == a && (b + a * n) % n == b
  {
    Commutes(a, n);
    DivModIs(b + a * n, n, a, b);
  }

  lemma GroupInRange(d: Dims, p: Pos)
    requires d.Valid() && InGrid(d, p)
    ensures 0 <= p.y / 32 + p.x / 32 * d.groupsY < d.groupsX * d.groupsY
    ensures Size(d) == d.groupsX * d.groupsY * 1024
  {
    Grows(0, p.x / 32, d.groupsY);
    Grows(p.x / 32 + 1, d.groupsX, d.groupsY);
    assert (p.x / 32 + 1) * d.groupsY == p.x / 32 * d.groupsY + d.groupsY;
    assert Size(d) == (d.groupsX * 32) * (d.groupsY * 32);
  }

  /** `At` is a bijection between the places of the grid and the indices of the array. */
  lemma AtIsIndex(d: Dims, p: Pos)
    requires d.Valid() && InGrid(d, p)
    ensures 0 <= At(d, p) < Size(d) && Where(d, At(d, p)) == p
  {
    GroupInRange(d, p);
    var group := p.y / 32 + p.x / 32 * d.groupsY;
    var rest := p.y % 32 + p.x % 32 * 32;
    assert At(d, p) == rest + group * 1024;
    DivModUnique(group, rest, 1024);
    DivModUnique(p.x / 32, p.y / 32, d.groupsY);
    DivModUnique(p.x % 32, p.y % 32, 32);
  }

  lemma WhereIsPlace(d: Dims, i: nat)
    requires d.Valid() && i < Size(d)
    ensures InGrid(d, Where(d, i)) && At(d, Where(d, i)) == i
  {
    var group, rest := i / 1024, i % 1024;
    var gx, gy := group / d.groupsY, group % d.groupsY;
    assert Size(d) == d.groupsX * d.groupsY * 1024 by { assert Size(d) == (d.groupsX * 32) * (d.groupsY * 32); }
    assert group < d.groupsX * d.groupsY;
    assert group == gx * d.groupsY + gy;
    if gx >= d.groupsX { Grows(d.groupsX, gx, d.groupsY); }
    DivModUnique(gx, rest / 32, 32);
    DivModUnique(gy, rest % 32, 32);
  }

  lemma AtInjective(d: Dims, p: Pos, q: Pos)
    requires d.Valid() && InGrid(d, p) && InGrid(d, q) && At(d, p) == At(d, q)
    ensures p == q
  {
    AtIsIndex(d, p);
    AtIsIndex(d, q);
  }

  /** Inside a group the neighbours of the array element `i` are its array neighbours at -32, -1, +1 and +32. */
  lemma GroupSteps(d: Dims, p: Pos)
    requires 1 <= p.x % 32 <= 30 && 1 <= p.y % 32 <= 30
    ensures At(d, Near(p, 0)) == At(d, p) - CELL_GROUP_SIZE
    ensures At(d, Near(p, 1)) == At(d, p) - 1
    ensures At(d, Near(p, 2)) == At(d, p) + 1
    ensures At(d, Near(p, 3)) == At(d, p) + CELL_GROUP_SIZE
  {
    StepInGroup(p.x);
    StepInGroup(p.y);
  }

  lemma StepInGroup(a: int)
    requires 1 <= a % 32 <= 30
    ensures (a - 1) / 32 == a / 32 == (a + 1) / 32
    ensures (a - 1) % 32 == a % 32 - 1 && (a + 1) % 32 == a % 32 + 1
  {}

  // ----- visits by place

  function Neighbours(d: Dims, p: Pos): (nb: seq<nat>)
    requires d.Valid() && Inner(d, p)
  {
    AtIsIndex(d, Near(p, 0)); AtIsIndex(d, Near(p, 1)); AtIsIndex(d, Near(p, 2)); AtIsIndex(d, Near(p, 3));
    [At(d, Near(p, 0)), At(d, Near(p, 1)), At(d, Near(p, 2)), At(d, Near(p, 3))]
  }

  lemma InnerStar(d: Dims, g: Grid, p: Pos)
    requires d.Valid() && Inner(d, p) && |g| == Size(d)
    ensures 0 <= At(d, p) < |g| && Star(g, At(d, p), Neighbours(d, p))
  {
    AtIsIndex(d, p);
    AtIsIndex(d, Near(p, 0)); AtIsIndex(d, Near(p, 1)); AtIsIndex(d, Near(p, 2)); AtIsIndex(d, Near(p, 3));
  }

  function Visit(d: Dims, g: Grid, p: Pos): (r: Grid)
    requires d.Valid() && Inner(d, p) && |g| == Size(d)
    ensures |r| == |g|
  {
    InnerStar(d, g, p);
    VisitAt(g, At(d, p), Neighbours(d, p))
  }

  ghost predicate AllInner(d: Dims, ps: seq<Pos>) {
    forall p :: p in ps ==> Inner(d, p)
  }

  /** The grid after the visits `ps`, in that order. */
  function VisitAll(d: Dims, g: Grid, ps: seq<Pos>): (r: Grid)
    requires d.Valid() && |g| == Size(d) && AllInner(d, ps)
    ensures |r| == |g|
  {
    if ps == [] then g
    else
      assert ps[|ps| - 1] in ps;
      Visit(d, VisitAll(d, g, ps[..|ps| - 1]), ps[|ps| - 1])
  }
}
