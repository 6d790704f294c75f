/** The gas grid as the source runs it: one array of cells that every pass overwrites in place. */
module AtmosGridInPlace {
  import opened CppInt
  import opened Arithmetic
  import opened AtmosModel
  import opened AtmosTheorems
  import opened AtmosSchedule

  /** The first `n` terms of a neighbour's inflow. */
  ghost function Shared(averages: Four, gases: Four, n: nat): int
    requires n <= 4
  {
    if n == 0 then 0 else Shared(averages, gases, n - 1) + averages[n - 1] - gases[n - 1]
  }

  lemma AllShared(averages: Four, gases: Four)
    ensures Shared(averages, gases, 4) == Sum4(averages) - Sum4(gases)
  {
    assert Shared(averages, gases, 1) == averages[0] - gases[0];
    assert Shared(averages, gases, 2) == Shared(averages, gases, 1) + averages[1] - gases[1];
    assert Shared(averages, gases, 3) == Shared(averages, gases, 2) + averages[2] - gases[2];
  }

  /** The place of the neighbour in each direction, or -1 where the source has a null pointer. */
  ghost predicate NearCells(g: Grid, c: nat, nb: seq<nat>, near: seq<int>)
    requires Star(g, c, nb)
  {
    |near| == 4 && forall d :: 0 <= d < 4 ==> near[d] == if Open(g, c, nb, d) then nb[d] else -1
  }

  /** The centre once its flows toward the directions below `d` are booked. */
  ghost function Booked(g: Grid, c: nat, nb: seq<nat>, d: nat): Cell
    requires Star(g, c, nb) && d <= 4
  {
    var f := g[c].flows;
    g[c].(flows := [if d > 0 then f[0] + Outflow(g, c, nb, 0) else f[0], if d > 1 then f[1] + Outflow(g, c, nb, 1) else f[1],
                    if d > 2 then f[2] + Outflow(g, c, nb, 2) else f[2], if d > 3 then f[3] + Outflow(g, c, nb, 3) else f[3]])
  }

  ghost function Receives(c: Cell, dir: nat, i: nat, average: int): Cell
    requires dir < 4 && i < 4
  {
    c.(flows := c.flows[dir := c.flows[dir] + average - c.gases[i]], gases := c.gases[i := average])
  }

  ghost function Pays(c: Cell, dir: nat, flow: int): Cell
    requires dir < 4
  {
    c.(flows := c.flows[dir := c.flows[dir] - flow])
  }

  /** A neighbour that got its share of the first `n` gases. */
  ghost function Half(c: Cell, dir: nat, averages: Four, n: nat): Cell
    requires dir < 4 && n <= 4
  {
    c.(gases := averages[..n] + c.gases[n..], flows := c.flows[dir := c.flows[dir] + Shared(averages, c.gases, n)])
  }

  ghost function Halfway(g: Grid, c: nat, n: nat, dir: nat, averages: Four, i: nat): Grid
    requires c < |g| && n < |g| && n != c && dir < 4 && i <= 4
  {
    g[n := Half(g[n], 3 - dir, averages, i)][c := Pays(g[c], dir, Shared(averages, g[n].gases, i))]
  }

  lemma Sharing(g: Grid, c: nat, n: nat, dir: nat, averages: Four)
    requires c < |g| && n < |g| && n != c && dir < 4
    ensures Halfway(g, c, n, dir, averages, 0) == g
    ensures Halfway(g, c, n, dir, averages, 4)
      == g[n := Whole(g[n], 3 - dir, averages)][c := Pays(g[c], dir, Sum4(averages) - Sum4(g[n].gases))]
  {
    HalfDone(g[n], g[c], dir, averages);
    assert averages[..0] + g[n].gases[0..] == g[n].gases;
    assert Half(g[n], 3 - dir, averages, 0) == g[n] && Pays(g[c], dir, Shared(averages, g[n].gases, 0)) == g[c];
  }

  lemma Overwrite(g: Grid, c: nat, n: nat, a: Cell, b: Cell, x: Cell)
    requires c < |g| && n < |g| && n != c
    ensures g[n := a][c := b][n := x] == g[n := x][c := b]
  {}

  lemma ShareStep(g: Grid, c: nat, n: nat, dir: nat, averages: Four, i: nat, h: Grid, k: Grid)
    requires c < |g| && n < |g| && n != c && dir < 4 && i < 4
    requires h == Halfway(g, c, n, dir, averages, i) && |k| == |h|
    requires forall j :: 0 <= j < |h| && j != n && j != c ==> k[j] == h[j]
    requires k[n] == Receives(h[n], 3 - dir, i, averages[i]) && k[c] == Pays(h[c], dir, averages[i] - h[n].gases[i])
    ensures k == Halfway(g, c, n, dir, averages, i + 1)
  {
    HalfStep(g[n], g[c], dir, averages, i);
    hide Receives, Pays, Half, Shared;
  }

  lemma HalfStep(near: Cell, centre: Cell, dir: nat, averages: Four, i: nat)
    requires dir < 4 && i < 4
    ensures Receives(Half(near, 3 - dir, averages, i), 3 - dir, i, averages[i]) == Half(near, 3 - dir, averages, i + 1)
    ensures Pays(Pays(centre, dir, Shared(averages, near.gases, i)), dir, averages[i] - Half(near, 3 - dir, averages, i).gases[i])
      == Pays(centre, dir, Shared(averages, near.gases, i + 1))
  {
    assert (averages[..i] + near.gases[i..])[i := averages[i]] == averages[..i + 1] + near.gases[i + 1..];
  }

  /** A neighbour that got its share of every gas. */
  ghost function Whole(c: Cell, dir: nat, averages: Four): Cell
    requires dir < 4
  {
    c.(gases := averages, flows := c.flows[dir := c.flows[dir] + Sum4(averages) - Sum4(c.gases)])
  }

  lemma HalfDone(near: Cell, centre: Cell, dir: nat, averages: Four)
    requires dir < 4
    ensures Half(near, 3 - dir, averages, 4) == Whole(near, 3 - dir, averages)
    ensures Pays(centre, dir, Shared(averages, near.gases, 4)) == Pays(centre, dir, Sum4(averages) - Sum4(near.gases))
  {
    AllShared(averages, near.gases);
    assert averages[..4] + near.gases[4..] == averages;
  }

  class AtmosGrid {
    const d: Dims
    const cells: array<Cell>

    ghost predicate Valid()
      reads this
    {
      d.Valid() && cells.Length == Size(d)
    }

    /** The source aborts on any other size. */
    constructor (width: int, height: int)
      requires width >= 2 && height >= 2 && width % CELL_GROUP_SIZE == 0 && height % CELL_GROUP_SIZE == 0
      ensures Valid() && fresh(cells) && d.Width() == width && d.Height() == height
      ensures forall i :: 0 <= i < cells.Length ==> cells[i] == Cell([0, 0, 0, 0], 0, 0, 1, 0, false, [0, 0, 0, 0], {})
    {
      d := Dims(width / CELL_GROUP_SIZE, height / CELL_GROUP_SIZE);
      assert width >= 32 && height >= 32;
      Grows(0, width, height);
      cells := new Cell[width * height](_ => Cell([0, 0, 0, 0], 0, 0, 1, 0, false, [0, 0, 0, 0], {}));
    }

    /** The sums over the neighbourhood: gases, energy, how many cells, and whether one burns. */
    method Gather(c: nat, near: seq<int>, ghost nb: seq<nat>) returns (sums: Four, energy: int, size: nat, fire: bool)
      requires Star(cells[..], c, nb) && NearCells(cells[..], c, nb, near)
      ensures forall k: nat :: k < 4 ==> sums[k] == Total(cells[..], c, nb, k)
      ensures energy == Total(cells[..], c, nb, 4) && size == NearSize(cells[..], c, nb)
      ensures fire <==> cells[c].fire || exists e :: 0 <= e < 4 && Open(cells[..], c, nb, e) && cells[nb[e]].fire
    {
      sums, energy, size, fire := [0, 0, 0, 0], 0, 0, false;
      for dir := 0 to DIRS_SIZE
        invariant forall k: nat :: k < 4 ==> sums[k] == Gathered(cells[..], c, nb, k, dir)
        invariant energy == Gathered(cells[..], c, nb, 4, dir) && size == Degree(cells[..], c, nb, dir)
        invariant fire <==> exists e :: 0 <= e < dir && Open(cells[..], c, nb, e) && cells[nb[e]].fire
      {
        if near[dir] >= 0 {
          var nearby := cells[near[dir]];
          sums := [sums[0] + nearby.gases[0], sums[1] + nearby.gases[1], sums[2] + nearby.gases[2], sums[3] + nearby.gases[3]];
          energy := energy + nearby.energy;
          fire := fire || nearby.fire;
          size := size + 1;
        }
      }
      var centre := cells[c];
      sums := [sums[0] + centre.gases[0], sums[1] + centre.gases[1], sums[2] + centre.gases[2], sums[3] + centre.gases[3]];
      energy, fire, size := energy + centre.energy, fire || centre.fire, size + 1;
    }

    /** Moves one gas over an edge: the neighbour gets the average, both sides book the difference. */
    method ShareGas(c: nat, n: nat, dir: nat, i: nat, average: int)
      requires c < cells.Length && n < cells.Length && n != c && dir < 4 && i < 4
      modifies cells
      ensures forall k :: 0 <= k < cells.Length && k != n && k != c ==> cells[k] == old(cells[k])
      ensures cells[n] == Receives(old(cells[n]), 3 - dir, i, average)
      ensures cells[c] == Pays(old(cells[c]), dir, average - old(cells[n]).gases[i])
    {
      var diff := average - cells[n].gases[i];
      cells[n] := cells[n].(flows := cells[n].flows[3 - dir := cells[n].flows[3 - dir] + diff]);
      cells[c] := cells[c].(flows := cells[c].flows[dir := cells[c].flows[dir] - diff]);
      cells[n] := cells[n].(gases := cells[n].gases[i := average]);
    }

    /** Gives one neighbour its share and books the flow on both sides, gas by gas. */
    method Share(c: nat, n: nat, dir: nat, averages: Four, energy: int, fire: bool)
      requires c < cells.Length && n < cells.Length && n != c && dir < 4
      modifies cells
      ensures var g := old(cells[..]);
        cells[..] == g[n := Whole(g[n], 3 - dir, averages).(energy := energy, fire := fire)]
                      [c := Pays(g[c], dir, Sum4(averages) - Sum4(g[n].gases))]
    {
      ghost var g := cells[..];
      Sharing(g, c, n, dir, averages);
      hide Receives, Pays, Whole, Sum4, Halfway;
      for i := 0 to GASES_NUM
        invariant cells[..] == Halfway(g, c, n, dir, averages, i)
      {
        ghost var h := cells[..];
        ShareGas(c, n, dir, i, averages[i]);
        ShareStep(g, c, n, dir, averages, i, h, cells[..]);
      }
      ghost var whole, paid := Whole(g[n], 3 - dir, averages), Pays(g[c], dir, Sum4(averages) - Sum4(g[n].gases));
      assert cells[..][n] == whole;
      cells[n] := cells[n].(energy := energy, fire := fire);
      Overwrite(g, c, n, whole, paid, whole.(energy := energy, fire := fire));
      assert cells[..] == g[n := whole][c := paid][n := whole.(energy := energy, fire := fire)];
    }

    /** The averages and the remainders of a neighbourhood. */
    method Shares(c: nat, near: seq<int>, ghost nb: seq<nat>) returns (averages: Four, remains: Four, energy: int, energyRemains: int, fire: bool)
      requires Star(cells[..], c, nb) && NearCells(cells[..], c, nb, near)
      ensures averages == Averages(cells[..], c, nb) && energy == Average(cells[..], c, nb, 4)
      ensures forall k :: 0 <= k < 4 ==> remains[k] == Remains(cells[..], c, nb, k)
      ensures energyRemains == Remains(cells[..], c, nb, 4) && fire == Burns(cells[..], c, nb)
    {
      var sums, total, size, burning := Gather(c, near, nb);
      hide Total, NearSize, Open;
      fire := burning && sums[PLASMA] != 0 && sums[OXYGEN] != 0;
      averages := [Div(sums[0], size), Div(sums[1], size), Div(sums[2], size), Div(sums[3], size)];
      remains := [Mod(sums[0], size), Mod(sums[1], size), Mod(sums[2], size), Mod(sums[3], size)];
      energy, energyRemains := Div(total, size), Mod(total, size);
    }

    /** ProcessFiveCells: averages the open neighbourhood; what does not divide stays with the centre. */
    method ProcessFiveCells(c: nat, near: seq<int>, ghost nb: seq<nat>)
      requires Star(cells[..], c, nb) && NearCells(cells[..], c, nb, near) && IsPassable(cells[c], CenterBlock)
      modifies cells
      ensures cells[..] == VisitAt(old(cells[..]), c, nb)
      ensures forall k: nat :: k <= 4 ==> Levelled(old(cells[..]), cells[..], c, nb, k)
      ensures Kindled(old(cells[..]), cells[..], c, nb)
    {
      ghost var g := cells[..];
      AfterVisit(g, c, nb);
      var averages, remains, energy, energyRemains, fire := Shares(c, near, nb);
      BookingStarts(g, c, nb);
      BookingEnds(g, c, nb);
      hide Averages, Average, Remains, Burns, Spread, Booked, CentreCell, VisitAt, Open, Whole, Pays, Sum4, Levelled, Kindled;
      for dir := 0 to DIRS_SIZE
        invariant cells[..] == Spread(g, c, nb, dir)[c := Booked(g, c, nb, dir)]
      {
        ClosedBooking(g, c, nb, dir);
        if near[dir] >= 0 {
          ghost var h := cells[..];
          Share(c, near[dir], dir, averages, energy, fire);
          Booking(g, c, nb, dir, h, cells[..]);
        }
      }
      assert cells[c] == cells[..][c];
      cells[c] := cells[c].(
        gases := [averages[0] + remains[0], averages[1] + remains[1], averages[2] + remains[2], averages[3] + remains[3]],
        energy := energy + energyRemains, fire := fire);
    }

    /** The neighbours of a cell that gas can move to, by array steps (ProcessInnerGroupCell) or by place
        (ProcessBorderGroupCell). */
    method NearOf(c: nat, steps: seq<nat>) returns (near: seq<int>)
      requires Star(cells[..], c, steps)
      ensures NearCells(cells[..], c, steps, near)
    {
      near := [];
      for dir := 0 to DIRS_SIZE
        invariant |near| == dir
        invariant forall k :: 0 <= k < dir ==> near[k] == if Open(cells[..], c, steps, k) then steps[k] else -1
      {
        if IsPassable(cells[c], DIRS[dir]) {
          var nearby := cells[steps[dir]];
          if IsPassable(nearby, DIRS[3 - dir]) && IsPassable(nearby, CenterBlock) {
            near := near + [steps[dir]];
            continue;
          }
        }
        near := near + [-1];
      }
    }

    /** Neighbours by pointer steps of 1 and 32: only right inside a group. */
    method ProcessInnerGroupCell(c: nat, ghost p: Pos)
      requires Valid() && Inner(d, p) && InGroupInterior(p) && c == At(d, p)
      modifies cells
      ensures cells[..] == Visit(d, old(cells[..]), p)
    {
      InnerStar(d, cells[..], p);
      if !IsPassable(cells[c], CenterBlock) { SolidVisit(cells[..], c, Neighbours(d, p)); return; }
      GroupSteps(d, p);
      var near := NearOf(c, [c - CELL_GROUP_SIZE, c - 1, c + 1, c + CELL_GROUP_SIZE]);
      ProcessFiveCells(c, near, Neighbours(d, p));
    }

    /** Neighbours by place. */
    method ProcessBorderGroupCell(p: Pos)
      requires Valid() && Inner(d, p)
      modifies cells
      ensures cells[..] == Visit(d, old(cells[..]), p)
    {
      InnerStar(d, cells[..], p);
      var c := At(d, p);
      if !IsPassable(cells[c], CenterBlock) { SolidVisit(cells[..], c, Neighbours(d, p)); return; }
      var near := NearOf(c, Neighbours(d, p));
      ProcessFiveCells(c, near, Neighbours(d, p));
    }

    /** The inner loop of a group stage, over y. */
    method ProcessGroupLine(index: nat, x: int, stage: int, tick: int)
      requires Valid() && index < d.groupsX * d.groupsY && 1 <= x < 31
      modifies cells
      ensures AllInner(d, Line(GroupSweep(d, index), x, 1, 31, stage, tick))
      ensures cells[..] == VisitAll(d, old(cells[..]), Line(GroupSweep(d, index), x, 1, 31, stage, tick))
    {
      ghost var s, g := GroupSweep(d, index), cells[..];
      LineStart(d, s, x, 1, g, stage, tick);
      assert s.outerIsX;
      hide AllInner, VisitAll, Line, Visit, GroupSweep, At, Inner, InGroupInterior, BelongsToStage;
      for y := 1 to 31
        invariant AllInner(d, Line(s, x, 1, y, stage, tick))
        invariant cells[..] == VisitAll(d, g, Line(s, x, 1, y, stage, tick))
      {
        GroupCell(d, index, x, y);
        LineNext(d, s, x, 1, y, g, stage, tick);
        if !BelongsToStage(x, y, stage, tick) { continue; }
        ProcessInnerGroupCell(index * 1024 + y + x * CELL_GROUP_SIZE, s.Place(x, y));
      }
    }

    /** One stage of a group: its columns. */
    method ProcessGroupStage(index: nat, stage: int, tick: int)
      requires Valid() && index < d.groupsX * d.groupsY
      modifies cells
      ensures var ps := Stage(GroupSweep(d, index), 1, 31, 1, 31, stage, tick);
        AllInner(d, ps) && cells[..] == VisitAll(d, old(cells[..]), ps)
    {
      ghost var g, s := cells[..], GroupSweep(d, index);
      EmptyVisits(d, g);
      hide AllInner, VisitAll, Line, GroupSweep;
      for x := 1 to CELL_GROUP_SIZE - 1
        invariant AllInner(d, Stage(s, 1, x, 1, 31, stage, tick))
        invariant cells[..] == VisitAll(d, g, Stage(s, 1, x, 1, 31, stage, tick))
      {
        ProcessGroupLine(index, x, stage, tick);
        VisitAllConcat(d, g, Stage(s, 1, x, 1, 31, stage, tick), Line(s, x, 1, 31, stage, tick));
      }
    }

    /** The five stages of a group. */
    method ProcessGroup(index: nat, tick: int)
      requires Valid() && index < d.groupsX * d.groupsY
      modifies cells
      ensures AllInner(d, Group(d, index, tick)) && cells[..] == VisitAll(d, old(cells[..]), Group(d, index, tick))
    {
      ghost var g, s := cells[..], GroupSweep(d, index);
      EmptyVisits(d, g);
      hide AllInner, VisitAll, Stage, GroupSweep;
      for stage := 0 to STAGES_AMOUNT
        invariant AllInner(d, Stages(s, 1, 31, 1, 31, stage, tick))
        invariant cells[..] == VisitAll(d, g, Stages(s, 1, 31, 1, 31, stage, tick))
      {
        ProcessGroupStage(index, stage, tick);
        VisitAllConcat(d, g, Stages(s, 1, 31, 1, 31, stage, tick), Stage(s, 1, 31, 1, 31, stage, tick));
      }
    }

    method ProcessGroups(tick: int)
      requires Valid()
      modifies cells
      ensures AllInner(d, Groups(d, d.groupsX * d.groupsY, tick))
      ensures cells[..] == VisitAll(d, old(cells[..]), Groups(d, d.groupsX * d.groupsY, tick))
    {
      ghost var g := cells[..];
      EmptyVisits(d, g);
      hide AllInner, VisitAll, Group;
      for index := 0 to d.groupsX * d.groupsY
        invariant AllInner(d, Groups(d, index, tick)) && cells[..] == VisitAll(d, g, Groups(d, index, tick))
      {
        ProcessGroup(index, tick);
        VisitAllConcat(d, g, Groups(d, index, tick), Group(d, index, tick));
      }
    }

    /** The inner loop of a border strip: along one column (or row) next to the border before group `k`. */
    method ProcessStripLine(vertical: bool, k: int, a: int, stage: int, tick: int)
      requires Valid() && 1 <= k < BorderEnd(d, vertical)
      requires k * CELL_GROUP_SIZE - 1 <= a <= k * CELL_GROUP_SIZE
      modifies cells
      ensures AllInner(d, StripLine(d, vertical, a, stage, tick))
      ensures cells[..] == VisitAll(d, old(cells[..]), StripLine(d, vertical, a, stage, tick))
    {
      hide AllInner, VisitAll, Visit, Line, BelongsToStage, At, Inner, IsPassable, InGrid;
      var hi := StripLength(d, vertical) - 1;
      assert hi >= 1;
      hide Size, BorderEnd, StripLength;
      ghost var g := cells[..];
      ghost var s := Sweep(vertical, 0, 0);
      LineStart(d, s, a, 1, g, stage, tick);
      for b := 1 to hi
        invariant AllInner(d, Line(s, a, 1, b, stage, tick))
        invariant cells[..] == VisitAll(d, g, Line(s, a, 1, b, stage, tick))
      {
        StripStep(d, vertical, k, a, b, g, stage, tick);
        var p := if vertical then Pos(a, b) else Pos(b, a);
        if !BelongsToStage(p.x, p.y, stage, tick) { continue; }
        ProcessBorderGroupCell(p);
      }
    }

    /** One stage of the strip along the border before group `k`: the two columns (or rows) next to it. */
    method ProcessStripStage(vertical: bool, k: int, stage: int, tick: int)
      requires Valid() && 1 <= k < BorderEnd(d, vertical)
      modifies cells
      ensures AllInner(d, StripStage(d, vertical, k, stage, tick))
      ensures cells[..] == VisitAll(d, old(cells[..]), StripStage(d, vertical, k, stage, tick))
    {
      ghost var g := cells[..];
      hide AllInner, VisitAll, StripLine, StripStage, Size, BorderEnd, StripLength;
      var end := k * CELL_GROUP_SIZE;
      ProcessStripLine(vertical, k, end - 1, stage, tick);
      ProcessStripLine(vertical, k, end, stage, tick);
      TwoLines(d, g, vertical, k, stage, tick);
    }

    /** The five stages of a strip. */
    method ProcessStrip(vertical: bool, k: int, tick: int)
      requires Valid() && 1 <= k < BorderEnd(d, vertical)
      modifies cells
      ensures AllInner(d, Strip(d, vertical, k, tick)) && cells[..] == VisitAll(d, old(cells[..]), Strip(d, vertical, k, tick))
    {
      ghost var g := cells[..];
      EmptyVisits(d, g);
      NoStrip(d, vertical, k, tick);
      hide AllInner, VisitAll, StripStages, StripStage;
      for stage := 0 to STAGES_AMOUNT
        invariant AllInner(d, StripStages(d, vertical, k, stage, tick))
        invariant cells[..] == VisitAll(d, g, StripStages(d, vertical, k, stage, tick))
      {
        ProcessStripStage(vertical, k, stage, tick);
        StripNext(d, vertical, k, stage, tick);
        VisitAllConcat(d, g, StripStages(d, vertical, k, stage, tick), StripStage(d, vertical, k, stage, tick));
      }
    }

    /** One direction of ProcessGroupsBorders. */
    method ProcessStrips(vertical: bool, tick: int)
      requires Valid()
      modifies cells
      ensures var ps := Strips(d, vertical, if vertical then d.groupsX else d.groupsY, tick);
        AllInner(d, ps) && cells[..] == VisitAll(d, old(cells[..]), ps)
    {
      ghost var g := cells[..];
      EmptyVisits(d, g);
      hide AllInner, VisitAll, Strip;
      for k := 1 to BorderEnd(d, vertical)
        invariant AllInner(d, Strips(d, vertical, k, tick)) && cells[..] == VisitAll(d, g, Strips(d, vertical, k, tick))
      {
        ProcessStrip(vertical, k, tick);
        VisitAllConcat(d, g, Strips(d, vertical, k, tick), Strip(d, vertical, k, tick));
      }
    }

    /** The last pass over every cell: space takes its part, fires burn, temperature and pressure follow. */
    method FinalizeCells()
      modifies cells
      ensures cells[..] == Finalize(old(cells[..]))
    {
      for pos := 0 to cells.Length
        invariant forall i :: 0 <= i < pos ==> cells[i] == FinalCell(old(cells[i]))
        invariant forall i :: pos <= i < cells.Length ==> cells[i] == old(cells[i])
      {
        cells[pos] := Vent(cells[pos]);
        cells[pos] := Burn(cells[pos]);
        cells[pos] := Macro(cells[pos]);
      }
    }

    /** The flow reset of Atmosphere::ProcessTileMove, tile after tile. */
    method ResetAllFlows()
      requires Valid()
      modifies cells
      ensures cells[..] == ResetFlows(old(cells[..]))
    {
      for x := 0 to d.Width()
        invariant forall i :: 0 <= i < cells.Length ==>
          cells[i] == if Where(d, i).x < x then old(cells[i]).(flows := [0, 0, 0, 0]) else old(cells[i])
      {
        for y := 0 to d.Height()
          invariant forall i :: 0 <= i < cells.Length ==>
            cells[i] == if Before(Where(d, i), x, y) then old(cells[i]).(flows := [0, 0, 0, 0]) else old(cells[i])
        {
          AtIsIndex(d, Pos(x, y));
          forall i: nat | i < cells.Length && Where(d, i) == Pos(x, y) ensures i == At(d, Pos(x, y)) { WhereIsPlace(d, i); }
          var i := At(d, Pos(x, y));
          cells[i] := cells[i].(flows := [0, 0, 0, 0]);
        }
        forall i: nat | i < cells.Length ensures Before(Where(d, i), x, d.Height()) <==> Where(d, i).x < x + 1 { WhereIsPlace(d, i); }
      }
      forall i: nat | i < cells.Length ensures Where(d, i).x < d.Width() { WhereIsPlace(d, i); }
    }

    /** AtmosGrid::Process. */
    method Process(tick: int)
      requires Valid()
      modifies cells
      ensures cells[..] == Tick(d, old(cells[..]), tick)
    {
      ghost var g := cells[..];
      hide VisitAll, AllInner;
      ProcessGroups(tick);
      ProcessStrips(true, tick);
      VisitAllConcat(d, g, Groups(d, d.groupsX * d.groupsY, tick), Strips(d, true, d.groupsX, tick));
      ProcessStrips(false, tick);
      VisitAllConcat(d, g, Groups(d, d.groupsX * d.groupsY, tick) + Strips(d, true, d.groupsX, tick),
                     Strips(d, false, d.groupsY, tick));
      FinalizeCells();
    }
  }

  lemma Booking(g: Grid, c: nat, nb: seq<nat>, dir: nat, h: Grid, k: Grid)
    requires Star(g, c, nb) && dir < 4 && Open(g, c, nb, dir) && |h| == |k| == |g|
    requires h == Spread(g, c, nb, dir)[c := Booked(g, c, nb, dir)] && h[nb[dir]] == g[nb[dir]]
    requires k == h[nb[dir] := Whole(h[nb[dir]], 3 - dir, Averages(g, c, nb)).(energy := Average(g, c, nb, 4), fire := Burns(g, c, nb))]
                   [c := Pays(h[c], dir, Sum4(Averages(g, c, nb)) - Sum4(h[nb[dir]].gases))]
    ensures k == Spread(g, c, nb, dir + 1)[c := Booked(g, c, nb, dir + 1)]
  {
    hide Averages, Average, Burns, Sum4;
    assert k[nb[dir]] == NearCell(g, c, nb, dir);
    assert k[c] == Booked(g, c, nb, dir + 1);
  }

  lemma BookingStarts(g: Grid, c: nat, nb: seq<nat>)
    requires Star(g, c, nb)
    ensures Spread(g, c, nb, 0)[c := Booked(g, c, nb, 0)] == g
  {
    assert g[c].flows == Booked(g, c, nb, 0).flows;
  }

  lemma AfterVisit(g: Grid, c: nat, nb: seq<nat>)
    requires Star(g, c, nb) && IsPassable(g[c], CenterBlock)
    ensures forall k: nat :: k <= 4 ==> Levelled(g, VisitAt(g, c, nb), c, nb, k)
    ensures Kindled(g, VisitAt(g, c, nb), c, nb)
  {
    forall k: nat | k <= 4 ensures Levelled(g, VisitAt(g, c, nb), c, nb, k) { VisitLevels(g, c, nb, k); }
    VisitKindles(g, c, nb);
  }

  lemma BookingEnds(g: Grid, c: nat, nb: seq<nat>)
    requires Star(g, c, nb) && IsPassable(g[c], CenterBlock)
    ensures Spread(g, c, nb, 4)[c := CentreCell(g, c, nb)] == VisitAt(g, c, nb)
    ensures CentreCell(g, c, nb) == Booked(g, c, nb, 4).(
      gases := [Averages(g, c, nb)[0] + Remains(g, c, nb, 0), Averages(g, c, nb)[1] + Remains(g, c, nb, 1),
                Averages(g, c, nb)[2] + Remains(g, c, nb, 2), Averages(g, c, nb)[3] + Remains(g, c, nb, 3)],
      energy := Average(g, c, nb, 4) + Remains(g, c, nb, 4), fire := Burns(g, c, nb))
  {
    hide Average, Remains, Burns, Outflow;
  }

  lemma ClosedBooking(g: Grid, c: nat, nb: seq<nat>, dir: nat)
    requires Star(g, c, nb) && dir < 4
    ensures Spread(g, c, nb, dir)[nb[dir]] == g[nb[dir]]
    ensures !Open(g, c, nb, dir) ==>
      Spread(g, c, nb, dir + 1) == Spread(g, c, nb, dir) && Booked(g, c, nb, dir + 1) == Booked(g, c, nb, dir)
  {
    SpreadOther(g, c, nb, dir, nb[dir]);
  }

  /** The y-th cell of the x-th column of a group, in the array and on the grid. */
  lemma GroupCell(d: Dims, index: nat, x: int, y: int)
    requires d.Valid() && index < d.groupsX * d.groupsY && 1 <= x < 31 && 1 <= y < 31
    ensures var p := GroupSweep(d, index).Place(x, y);
      Inner(d, p) && InGroupInterior(p) && At(d, p) == index * 1024 + y + x * CELL_GROUP_SIZE
  {
    hide Inner, InGrid, AtBorder;
    var p := GroupSweep(d, index).Place(x, y);
    GroupBox(d, index, p);
    assert InGrid(d, p) && InGroupInterior(p) && GroupOf(d, p) == index;
    InteriorIsInner(d, p);
    assert p.x % 32 == x && p.y % 32 == y;
  }

  lemma InteriorIsInner(d: Dims, p: Pos)
    requires d.Valid() && InGrid(d, p) && InGroupInterior(p)
    ensures Inner(d, p)
  {
    BorderOrInterior(p.x, d.groupsX);
    BorderOrInterior(p.y, d.groupsY);
  }

  lemma StripCell(d: Dims, vertical: bool, k: int, a: int, b: int)
    requires d.Valid() && 1 <= k < BorderEnd(d, vertical)
    requires k * CELL_GROUP_SIZE - 1 <= a <= k * CELL_GROUP_SIZE && 1 <= b < StripLength(d, vertical) - 1
    ensures Inner(d, if vertical then Pos(a, b) else Pos(b, a))
  {}

  function BorderEnd(d: Dims, vertical: bool): nat {
    if vertical then d.groupsX else d.groupsY
  }

  function StripLength(d: Dims, vertical: bool): nat {
    if vertical then d.Height() else d.Width()
  }

  ghost predicate Before(p: Pos, x: int, y: int) {
    p.x < x || (p.x == x && p.y < y)
  }

  lemma StripStep(d: Dims, vertical: bool, k: int, a: int, b: int, g: Grid, stage: int, tick: int)
    requires d.Valid() && 1 <= k < BorderEnd(d, vertical) && |g| == Size(d)
    requires k * CELL_GROUP_SIZE - 1 <= a <= k * CELL_GROUP_SIZE && 1 <= b < StripLength(d, vertical) - 1
    requires AllInner(d, Line(Sweep(vertical, 0, 0), a, 1, b, stage, tick))
    ensures var s, p := Sweep(vertical, 0, 0), if vertical then Pos(a, b) else Pos(b, a);
      && Inner(d, p) && AllInner(d, Line(s, a, 1, b + 1, stage, tick))
      && VisitAll(d, g, Line(s, a, 1, b + 1, stage, tick)) ==
           var h := VisitAll(d, g, Line(s, a, 1, b, stage, tick));
           if BelongsToStage(p.x, p.y, stage, tick) then Visit(d, h, p) else h
  {
    hide AllInner, VisitAll, Visit, Line, BelongsToStage, Inner;
    StripCell(d, vertical, k, a, b);
    LineNext(d, Sweep(vertical, 0, 0), a, 1, b, g, stage, tick);
  }

  ghost function StripLine(d: Dims, vertical: bool, a: int, stage: int, tick: int): seq<Pos> {
    Line(Sweep(vertical, 0, 0), a, 1, StripLength(d, vertical) - 1, stage, tick)
  }

  lemma TwoLines(d: Dims, g: seq<Cell>, vertical: bool, k: int, stage: int, tick: int)
    requires d.Valid() && |g| == Size(d)
    requires AllInner(d, StripLine(d, vertical, k * CELL_GROUP_SIZE - 1, stage, tick))
    requires AllInner(d, StripLine(d, vertical, k * CELL_GROUP_SIZE, stage, tick))
    ensures var left, right := StripLine(d, vertical, k * CELL_GROUP_SIZE - 1, stage, tick), StripLine(d, vertical, k * CELL_GROUP_SIZE, stage, tick);
      AllInner(d, StripStage(d, vertical, k, stage, tick)) &&
      VisitAll(d, g, StripStage(d, vertical, k, stage, tick)) == VisitAll(d, VisitAll(d, g, left), right)
  {
    StripStageIs(d, vertical, k, stage, tick);
    hide StripLine, StripStage, Size, VisitAll, AllInner;
    VisitAllConcat(d, g, StripLine(d, vertical, k * CELL_GROUP_SIZE - 1, stage, tick), StripLine(d, vertical, k * CELL_GROUP_SIZE, stage, tick));
  }

  lemma StripStageIs(d: Dims, vertical: bool, k: int, stage: int, tick: int)
    ensures StripStage(d, vertical, k, stage, tick) ==
      StripLine(d, vertical, k * CELL_GROUP_SIZE - 1, stage, tick) + StripLine(d, vertical, k * CELL_GROUP_SIZE, stage, tick)
  {
    hide Line;
    var s, end, hi := Sweep(vertical, 0, 0), k * CELL_GROUP_SIZE, StripLength(d, vertical) - 1;
    assert Stage(s, end - 1, end - 1, 1, hi, stage, tick) == [];
    assert Stage(s, end - 1, end, 1, hi, stage, tick) == [] + Line(s, end - 1, 1, hi, stage, tick);
    assert [] + Line(s, end - 1, 1, hi, stage, tick) == Line(s, end - 1, 1, hi, stage, tick);
  }

  ghost function StripStage(d: Dims, vertical: bool, k: int, stage: int, tick: int): seq<Pos> {
    var end, hi := k * CELL_GROUP_SIZE, StripLength(d, vertical) - 1;
    Stage(Sweep(vertical, 0, 0), end - 1, end + 1, 1, hi, stage, tick)
  }

  ghost function StripStages(d: Dims, vertical: bool, k: int, n: nat, tick: int): seq<Pos> {
    var end, hi := k * CELL_GROUP_SIZE, StripLength(d, vertical) - 1;
    Stages(Sweep(vertical, 0, 0), end - 1, end + 1, 1, hi, n, tick)
  }

  lemma NoStrip(d: Dims, vertical: bool, k: int, tick: int)
    ensures StripStages(d, vertical, k, 0, tick) == [] && StripStages(d, vertical, k, 5, tick) == Strip(d, vertical, k, tick)
  {
    hide Stage;
  }

  lemma StripNext(d: Dims, vertical: bool, k: int, n: nat, tick: int)
    ensures StripStages(d, vertical, k, n + 1, tick) == StripStages(d, vertical, k, n, tick) + StripStage(d, vertical, k, n, tick)
  {
    hide Stage;
  }

  lemma LineStart(d: Dims, s: Sweep, a: int, lo: int, g: Grid, stage: int, tick: int)
    requires d.Valid() && |g| == Size(d)
    ensures AllInner(d, Line(s, a, lo, lo, stage, tick)) && VisitAll(d, g, Line(s, a, lo, lo, stage, tick)) == g
  {}

  lemma LineNext(d: Dims, s: Sweep, a: int, lo: int, b: int, g: Grid, stage: int, tick: int)
    requires d.Valid() && |g| == Size(d) && lo <= b
    requires AllInner(d, Line(s, a, lo, b, stage, tick)) && Inner(d, s.Place(a, b))
    ensures AllInner(d, Line(s, a, lo, b + 1, stage, tick))
    ensures VisitAll(d, g, Line(s, a, lo, b + 1, stage, tick)) ==
      var h := VisitAll(d, g, Line(s, a, lo, b, stage, tick));
      if s.OnStage(a, b, stage, tick) then Visit(d, h, s.Place(a, b)) else h
  {
    hide VisitAll;
    var ps := Line(s, a, lo, b, stage, tick);
    if s.OnStage(a, b, stage, tick) {
      assert Line(s, a, lo, b + 1, stage, tick) == ps + [s.Place(a, b)];
      VisitAllSplit(d, g, ps, s.Place(a, b));
    } else {
      assert Line(s, a, lo, b + 1, stage, tick) == ps;
    }
  }

  lemma EmptyVisits(d: Dims, g: Grid)
    requires d.Valid() && |g| == Size(d)
    ensures AllInner(d, []) && VisitAll(d, g, []) == g
  {}
}
