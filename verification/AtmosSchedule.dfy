/** The order in which one tick visits the cells: group interiors, then the strips
    along vertical group borders, then those along horizontal ones, each in five stages.
 */
module AtmosSchedule {
  import opened CppInt
  import opened Arithmetic
  import opened AtmosModel
  import opened AtmosTheorems

  predicate BelongsToStage(x: int, y: int, stage: int, tick: int) {
    Mod(x + y * 2, STAGES_AMOUNT) == Mod(tick + stage, STAGES_AMOUNT)
  }

  /** A pair of nested loops over places: the outer one over x or over y, shifted to an origin. */
  datatype Sweep = Sweep(outerIsX: bool, ox: int, oy: int) {
    function Place(a: int, b: int): Pos {
      if outerIsX then Pos(ox + a, oy + b) else Pos(ox + b, oy + a)
    }
    function Outer(p: Pos): int { if outerIsX then p.x - ox else p.y - oy }
    function Inner(p: Pos): int { if outerIsX then p.y - oy else p.x - ox }
    /** The stage test, on the loop variables. */
    predicate OnStage(a: int, b: int, stage: int, tick: int) {
      if outerIsX then BelongsToStage(a, b, stage, tick) else BelongsToStage(b, a, stage, tick)
    }
  }

  /** The inner loop, b from lo to hi. */
  function Line(s: Sweep, a: int, lo: int, hi: int, stage: int, tick: int): seq<Pos>
    decreases hi - lo
  {
    if hi <= lo then []
    else Line(s, a, lo, hi - 1, stage, tick) + if s.OnStage(a, hi - 1, stage, tick) then [s.Place(a, hi - 1)] else []
  }

  /** Both loops for one stage, a from a0 to a1. */
  function Stage(s: Sweep, a0: int, a1: int, lo: int, hi: int, stage: int, tick: int): seq<Pos>
    decreases a1 - a0
  {
    if a1 <= a0 then [] else Stage(s, a0, a1 - 1, lo, hi, stage, tick) + Line(s, a1 - 1, lo, hi, stage, tick)
  }

  /** The first `n` stages. */
  function Stages(s: Sweep, a0: int, a1: int, lo: int, hi: int, n: nat, tick: int): seq<Pos> {
    if n == 0 then [] else Stages(s, a0, a1, lo, hi, n - 1, tick) + Stage(s, a0, a1, lo, hi, n - 1, tick)
  }

  function GroupSweep(d: Dims, index: nat): Sweep
    requires d.Valid()
  {
    Sweep(true, index / d.groupsY * CELL_GROUP_SIZE, index % d.groupsY * CELL_GROUP_SIZE)
  }

  function Group(d: Dims, index: nat, tick: int): seq<Pos>
    requires d.Valid()
  {
    Stages(GroupSweep(d, index), 1, CELL_GROUP_SIZE - 1, 1, CELL_GROUP_SIZE - 1, STAGES_AMOUNT, tick)
  }

  /** ProcessGroups over the first `n` groups. */
  function Groups(d: Dims, n: nat, tick: int): seq<Pos>
    requires d.Valid()
  {
    if n == 0 then [] else Groups(d, n - 1, tick) + Group(d, n - 1, tick)
  }

  /** The strip of two columns or rows around the border before group `k`. */
  function Strip(d: Dims, vertical: bool, k: int, tick: int): seq<Pos> {
    var end := k * CELL_GROUP_SIZE;
    Stages(Sweep(vertical, 0, 0), end - 1, end + 1, 1, (if vertical then d.Height() else d.Width()) - 1, STAGES_AMOUNT, tick)
  }

  /** The strips before the groups 1 to n - 1. */
  function Strips(d: Dims, vertical: bool, n: int, tick: int): seq<Pos>
    decreases n
  {
    if n <= 1 then [] else Strips(d, vertical, n - 1, tick) + Strip(d, vertical, n - 1, tick)
  }

  function Schedule(d: Dims, tick: int): seq<Pos>
    requires d.Valid()
  {
    Groups(d, d.groupsX * d.groupsY, tick) + Strips(d, true, d.groupsX, tick) + Strips(d, false, d.groupsY, tick)
  }

  // ----- which places are visited, and how often

  lemma CountConcat(a: seq<Pos>, b: seq<Pos>, p: Pos)
    ensures multiset(a + b)[p] == multiset(a)[p] + multiset(b)[p]
  {
    assert multiset(a + b) == multiset(a) + multiset(b);
  }

  predicate InBox(s: Sweep, p: Pos, a0: int, a1: int, lo: int, hi: int) {
    a0 <= s.Outer(p) < a1 && lo <= s.Inner(p) < hi
  }

  lemma {:induction false} LineCount(s: Sweep, a: int, lo: int, hi: int, stage: int, tick: int, p: Pos)
    ensures multiset(Line(s, a, lo, hi, stage, tick))[p]
      == if InBox(s, p, a, a + 1, lo, hi) && s.OnStage(s.Outer(p), s.Inner(p), stage, tick) then 1 else 0
    decreases hi - lo
  {
    hide BelongsToStage;
    if hi > lo {
      LineCount(s, a, lo, hi - 1, stage, tick, p);
      var last := if s.OnStage(a, hi - 1, stage, tick) then [s.Place(a, hi - 1)] else [];
      CountConcat(Line(s, a, lo, hi - 1, stage, tick), last, p);
      assert s.Place(a, hi - 1) == p <==> s.Outer(p) == a && s.Inner(p) == hi - 1;
    }
  }

  lemma {:induction false} StageCount(s: Sweep, a0: int, a1: int, lo: int, hi: int, stage: int, tick: int, p: Pos)
    ensures multiset(Stage(s, a0, a1, lo, hi, stage, tick))[p]
      == if InBox(s, p, a0, a1, lo, hi) && s.OnStage(s.Outer(p), s.Inner(p), stage, tick) then 1 else 0
    decreases a1 - a0
  {
    if a1 > a0 {
      StageCount(s, a0, a1 - 1, lo, hi, stage, tick, p);
      LineCount(s, a1 - 1, lo, hi, stage, tick, p);
      CountConcat(Stage(s, a0, a1 - 1, lo, hi, stage, tick), Line(s, a1 - 1, lo, hi, stage, tick), p);
    }
  }

  /** At any tick from 0 on, the stage a colour has. */
  function StageOf(s: Sweep, p: Pos, tick: int): (n: int)
    ensures 0 <= n < STAGES_AMOUNT
  {
    var colour := if s.outerIsX then s.Outer(p) + s.Inner(p) * 2 else s.Inner(p) + s.Outer(p) * 2;
    (colour - tick) % STAGES_AMOUNT
  }

  lemma SameResidue(a: int, b: int)
    ensures a % 5 == b % 5 <==> (a - b) % 5 == 0
  {
    assert a == a / 5 * 5 + a % 5 && b == b / 5 * 5 + b % 5;
  }

  lemma ResidueIs(a: int, s: int)
    requires 0 <= s < 5
    ensures a % 5 == s <==> (a - s) % 5 == 0
  {
    SameResidue(a, s);
  }

  lemma OneStage(s: Sweep, p: Pos, stage: nat, tick: nat)
    requires stage < STAGES_AMOUNT && s.Outer(p) >= 0 && s.Inner(p) >= 0
    ensures s.OnStage(s.Outer(p), s.Inner(p), stage, tick) <==> stage == StageOf(s, p, tick)
  {
    var colour := if s.outerIsX then s.Outer(p) + s.Inner(p) * 2 else s.Inner(p) + s.Outer(p) * 2;
    ModNat(colour);
    ModNat(tick + stage);
    SameResidue(colour, tick + stage);
    ResidueIs(colour - tick, stage);
    assert colour - (tick + stage) == colour - tick - stage;
  }

  lemma ModNat(a: nat)
    ensures Mod(a, 5) == a % 5
  {}

  lemma {:induction false} StagesCount(s: Sweep, a0: nat, a1: int, lo: nat, hi: int, n: nat, tick: nat, p: Pos)
    requires n <= STAGES_AMOUNT
    ensures multiset(Stages(s, a0, a1, lo, hi, n, tick))[p]
      == if InBox(s, p, a0, a1, lo, hi) && StageOf(s, p, tick) < n then 1 else 0
  {
    hide Line, Stage, StageOf, BelongsToStage;
    if n > 0 {
      StagesCount(s, a0, a1, lo, hi, n - 1, tick, p);
      StageCount(s, a0, a1, lo, hi, n - 1, tick, p);
      CountConcat(Stages(s, a0, a1, lo, hi, n - 1, tick), Stage(s, a0, a1, lo, hi, n - 1, tick), p);
      if InBox(s, p, a0, a1, lo, hi) { OneStage(s, p, n - 1, tick); }
    }
  }

  predicate InGroupInterior(p: Pos) {
    1 <= p.x % CELL_GROUP_SIZE <= 30 && 1 <= p.y % CELL_GROUP_SIZE <= 30
  }

  function GroupOf(d: Dims, p: Pos): int {
    p.y / CELL_GROUP_SIZE + p.x / CELL_GROUP_SIZE * d.groupsY
  }

  lemma GroupBox(d: Dims, index: nat, p: Pos)
    requires d.Valid() && index < d.groupsX * d.groupsY
    ensures InBox(GroupSweep(d, index), p, 1, 31, 1, 31)
      <==> InGrid(d, p) && InGroupInterior(p) && GroupOf(d, p) == index
  {
    hide InBox, GroupOf, InGrid, InGroupInterior;
    GroupAt(d, index);
    BoxOf(d, index, p);
    if InGrid(d, p) && GroupOf(d, p) == index { GroupOfPlace(d, index, p); }
  }

  /** A group's column and row. */
  lemma GroupAt(d: Dims, index: nat)
    requires d.Valid() && index < d.groupsX * d.groupsY
    ensures index / d.groupsY < d.groupsX && index == index % d.groupsY + index / d.groupsY * d.groupsY
  {
    var gx := index / d.groupsY;
    if gx >= d.groupsX { Grows(d.groupsX, gx, d.groupsY); }
  }

  lemma BoxOf(d: Dims, index: nat, p: Pos)
    requires d.Valid() && index / d.groupsY < d.groupsX && index == index % d.groupsY + index / d.groupsY * d.groupsY
    ensures InBox(GroupSweep(d, index), p, 1, 31, 1, 31)
      <==> p.x / 32 == index / d.groupsY && p.y / 32 == index % d.groupsY && InGroupInterior(p)
    ensures p.x / 32 == index / d.groupsY && p.y / 32 == index % d.groupsY ==> InGrid(d, p) && GroupOf(d, p) == index
  {
    var gx, gy := index / d.groupsY, index % d.groupsY;
    BoxSide(p.x, gx);
    BoxSide(p.y, gy);
    assert 0 <= gy < d.groupsY;
  }

  lemma BoxSide(c: int, k: int)
    ensures 1 <= c - k * 32 < 31 <==> c / 32 == k && 1 <= c % 32 <= 30
    ensures c / 32 == k <==> k * 32 <= c < k * 32 + 32
  {}

  lemma GroupOfPlace(d: Dims, index: nat, p: Pos)
    requires d.Valid() && InGrid(d, p) && GroupOf(d, p) == index
    ensures p.x / 32 == index / d.groupsY && p.y / 32 == index % d.groupsY
  {
    DivModUnique(p.x / 32, p.y / 32, d.groupsY);
  }

  lemma {:induction false} GroupsCount(d: Dims, n: nat, tick: nat, p: Pos)
    requires d.Valid() && n <= d.groupsX * d.groupsY
    ensures multiset(Groups(d, n, tick))[p]
      == if InGrid(d, p) && InGroupInterior(p) && GroupOf(d, p) < n then 1 else 0
  {
    hide Stages, InBox, GroupSweep, InGroupInterior, GroupOf, InGrid, StageOf;
    if n > 0 {
      GroupsCount(d, n - 1, tick, p);
      assert 0 <= StageOf(GroupSweep(d, n - 1), p, tick) < 5;
      StagesCount(GroupSweep(d, n - 1), 1, 31, 1, 31, 5, tick, p);
      GroupBox(d, n - 1, p);
      CountConcat(Groups(d, n - 1, tick), Group(d, n - 1, tick), p);
    } else if InGrid(d, p) {
      GroupInRange(d, p);
      assert GroupOf(d, p) >= 0 by { GroupOfNat(d, p); }
    }
  }

  lemma GroupOfNat(d: Dims, p: Pos)
    requires d.Valid() && InGrid(d, p)
    ensures 0 <= GroupOf(d, p) < d.groupsX * d.groupsY
  {
    GroupInRange(d, p);
  }

  /** `c` lies next to a border between two of `n` groups. */
  predicate AtBorder(c: int, n: int) {
    (c % CELL_GROUP_SIZE == 31 || c % CELL_GROUP_SIZE == 0) && 1 <= (c + 1) / CELL_GROUP_SIZE < n
  }

  lemma BorderStrip(c: int, n: int)
    requires n > 1
    ensures AtBorder(c, n) <==> AtBorder(c, n - 1) || (n - 1) * CELL_GROUP_SIZE - 1 <= c < (n - 1) * CELL_GROUP_SIZE + 1
    ensures AtBorder(c, n - 1) ==> c < (n - 1) * CELL_GROUP_SIZE - 1
  {}

  lemma StripCount(d: Dims, vertical: bool, k: nat, tick: nat, p: Pos)
    requires k >= 1
    ensures multiset(Strip(d, vertical, k, tick))[p] ==
      if vertical then (if k * 32 - 1 <= p.x < k * 32 + 1 && 1 <= p.y < d.Height() - 1 then 1 else 0)
      else (if k * 32 - 1 <= p.y < k * 32 + 1 && 1 <= p.x < d.Width() - 1 then 1 else 0)
  {
    hide Stages, StageOf;
    assert 0 <= StageOf(Sweep(vertical, 0, 0), p, tick) < 5;
    StagesCount(Sweep(vertical, 0, 0), k * 32 - 1, k * 32 + 1, 1, (if vertical then d.Height() else d.Width()) - 1, 5, tick, p);
  }

  lemma {:induction false} StripsCount(d: Dims, vertical: bool, n: int, tick: nat, p: Pos)
    ensures multiset(Strips(d, vertical, n, tick))[p] ==
      if vertical then (if AtBorder(p.x, n) && 1 <= p.y < d.Height() - 1 then 1 else 0)
      else (if AtBorder(p.y, n) && 1 <= p.x < d.Width() - 1 then 1 else 0)
    decreases n
  {
    if n > 1 {
      hide Strip, AtBorder;
      StripsCount(d, vertical, n - 1, tick, p);
      StripCount(d, vertical, n - 1, tick, p);
      CountConcat(Strips(d, vertical, n - 1, tick), Strip(d, vertical, n - 1, tick), p);
      BorderStrip(if vertical then p.x else p.y, n);
    }
  }

  /** A cell where a vertical and a horizontal group border cross. */
  predicate Crossing(d: Dims, p: Pos) {
    AtBorder(p.x, d.groupsX) && AtBorder(p.y, d.groupsY)
  }

  lemma BorderOrInterior(c: int, n: nat)
    requires n >= 1
    ensures AtBorder(c, n) <==> 1 <= c < n * CELL_GROUP_SIZE - 1 && !(1 <= c % CELL_GROUP_SIZE <= 30)
    ensures 0 <= c < n * CELL_GROUP_SIZE && 1 <= c % CELL_GROUP_SIZE <= 30 ==> 1 <= c < n * CELL_GROUP_SIZE - 1
  {}

  /** At every tick each cell off the outer frame is a centre exactly once, at border crossings exactly
      twice; cells on the frame and outside are never one. */
  lemma Coverage(d: Dims, tick: nat, p: Pos)
    requires d.Valid()
    ensures multiset(Schedule(d, tick))[p] == if !Inner(d, p) then 0 else if Crossing(d, p) then 2 else 1
  {
    hide Groups, Strips, AtBorder, GroupOf;
    GroupsCount(d, d.groupsX * d.groupsY, tick, p);
    StripsCount(d, true, d.groupsX, tick, p);
    StripsCount(d, false, d.groupsY, tick, p);
    CountConcat(Groups(d, d.groupsX * d.groupsY, tick), Strips(d, true, d.groupsX, tick), p);
    CountConcat(Groups(d, d.groupsX * d.groupsY, tick) + Strips(d, true, d.groupsX, tick), Strips(d, false, d.groupsY, tick), p);
    if InGrid(d, p) { GroupOfNat(d, p); }
    BorderOrInterior(p.x, d.groupsX);
    BorderOrInterior(p.y, d.groupsY);
  }

  // ----- every visit is of an inner cell, at any tick

  lemma {:induction false} LinePlaces(s: Sweep, a: int, lo: int, hi: int, stage: int, tick: int, p: Pos)
    requires p in Line(s, a, lo, hi, stage, tick)
    ensures s.Outer(p) == a && lo <= s.Inner(p) < hi && s.OnStage(a, s.Inner(p), stage, tick)
    decreases hi - lo
  {
    if hi > lo && p in Line(s, a, lo, hi - 1, stage, tick) { LinePlaces(s, a, lo, hi - 1, stage, tick, p); }
  }

  lemma {:induction false} StagePlaces(s: Sweep, a0: int, a1: int, lo: int, hi: int, stage: int, tick: int, p: Pos)
    requires p in Stage(s, a0, a1, lo, hi, stage, tick)
    ensures InBox(s, p, a0, a1, lo, hi) && s.OnStage(s.Outer(p), s.Inner(p), stage, tick)
    decreases a1 - a0
  {
    if p in Line(s, a1 - 1, lo, hi, stage, tick) {
      LinePlaces(s, a1 - 1, lo, hi, stage, tick, p);
    } else {
      StagePlaces(s, a0, a1 - 1, lo, hi, stage, tick, p);
    }
  }

  lemma {:induction false} StagesPlaces(s: Sweep, a0: int, a1: int, lo: int, hi: int, n: nat, tick: int, p: Pos)
    requires p in Stages(s, a0, a1, lo, hi, n, tick)
    ensures InBox(s, p, a0, a1, lo, hi)
  {
    if p in Stage(s, a0, a1, lo, hi, n - 1, tick) {
      StagePlaces(s, a0, a1, lo, hi, n - 1, tick, p);
    } else {
      StagesPlaces(s, a0, a1, lo, hi, n - 1, tick, p);
    }
  }

  lemma GroupPlaces(d: Dims, index: nat, tick: int, p: Pos)
    requires d.Valid() && index < d.groupsX * d.groupsY && p in Group(d, index, tick)
    ensures Inner(d, p) && InGroupInterior(p) && GroupOf(d, p) == index
  {
    GroupBox(d, index, p);
    assert InBox(GroupSweep(d, index), p, 1, 31, 1, 31) by {
      hide *;
      GroupInBox(d, index, tick, p);
    }
    assert InGrid(d, p) && InGroupInterior(p);
    BorderOrInterior(p.x, d.groupsX);
    BorderOrInterior(p.y, d.groupsY);
  }

  lemma GroupInBox(d: Dims, index: nat, tick: int, p: Pos)
    requires d.Valid() && p in Group(d, index, tick)
    ensures InBox(GroupSweep(d, index), p, 1, 31, 1, 31)
  {
    hide Stages, InBox, GroupSweep;
    StagesPlaces(GroupSweep(d, index), 1, 31, 1, 31, 5, tick, p);
  }

  lemma {:induction false} GroupsPlaces(d: Dims, n: nat, tick: int, p: Pos)
    requires d.Valid() && n <= d.groupsX * d.groupsY && p in Groups(d, n, tick)
    ensures Inner(d, p)
  {
    hide Group, Inner;
    if p in Group(d, n - 1, tick) { GroupPlaces(d, n - 1, tick, p); } else { GroupsPlaces(d, n - 1, tick, p); }
  }

  lemma StripPlaces(d: Dims, vertical: bool, k: int, tick: int, p: Pos)
    requires d.Valid() && 1 <= k < (if vertical then d.groupsX else d.groupsY) && p in Strip(d, vertical, k, tick)
    ensures Inner(d, p)
  {
    hide Stages;
    StagesPlaces(Sweep(vertical, 0, 0), k * 32 - 1, k * 32 + 1, 1, (if vertical then d.Height() else d.Width()) - 1, 5, tick, p);
  }

  lemma {:induction false} StripsPlaces(d: Dims, vertical: bool, n: int, tick: int, p: Pos)
    requires d.Valid() && n <= (if vertical then d.groupsX else d.groupsY) && p in Strips(d, vertical, n, tick)
    ensures Inner(d, p)
    decreases n
  {
    hide Strip, Inner;
    if p in Strip(d, vertical, n - 1, tick) {
      StripPlaces(d, vertical, n - 1, tick, p);
    } else {
      StripsPlaces(d, vertical, n - 1, tick, p);
    }
  }

  lemma ScheduleInner(d: Dims, tick: int)
    requires d.Valid()
    ensures AllInner(d, Groups(d, d.groupsX * d.groupsY, tick))
    ensures AllInner(d, Strips(d, true, d.groupsX, tick)) && AllInner(d, Strips(d, false, d.groupsY, tick))
    ensures AllInner(d, Schedule(d, tick))
  {
    forall p | p in Groups(d, d.groupsX * d.groupsY, tick) ensures Inner(d, p) {
      GroupsPlaces(d, d.groupsX * d.groupsY, tick, p);
    }
    forall p | p in Strips(d, true, d.groupsX, tick) ensures Inner(d, p) { StripsPlaces(d, true, d.groupsX, tick, p); }
    forall p | p in Strips(d, false, d.groupsY, tick) ensures Inner(d, p) { StripsPlaces(d, false, d.groupsY, tick, p); }
  }

  // ----- the order inside a stage and between groups does not matter

  function Singles(ps: seq<Pos>): (bs: seq<seq<Pos>>)
    ensures |bs| == |ps| && forall i :: 0 <= i < |ps| ==> bs[i] == [ps[i]]
  {
    Mapped((p: Pos) => [p], ps)
  }

  lemma {:induction false} FlattenSingles(ps: seq<Pos>)
    ensures Flatten(Singles(ps)) == ps
  {
    if ps != [] {
      FlattenSingles(ps[1..]);
      assert Singles(ps)[1..] == Singles(ps[1..]);
      assert ps == [ps[0]] + ps[1..];
    }
  }

  lemma StageApart(s: Sweep, a0: int, a1: int, lo: int, hi: int, stage: int, tick: int, p: Pos, q: Pos)
    requires p in Stage(s, a0, a1, lo, hi, stage, tick) && q in Stage(s, a0, a1, lo, hi, stage, tick) && p != q
    ensures Apart(p, q)
  {
    StagePlaces(s, a0, a1, lo, hi, stage, tick, p);
    StagePlaces(s, a0, a1, lo, hi, stage, tick, q);
    SameColourApart(Pos(p.x - s.ox, p.y - s.oy), Pos(q.x - s.ox, q.y - s.oy));
  }

  lemma SinglesApart(d: Dims, ps: seq<Pos>)
    requires AllInner(d, ps) && forall p, q :: p in ps && q in ps && p != q ==> Apart(p, q)
    ensures BlocksInner(d, Singles(ps)) && Exchangeable(Singles(ps))
  {
    hide Apart, Inner;
    var bs := Singles(ps);
    forall b | b in bs ensures exists p :: p in ps && b == [p] {
      var i :| 0 <= i < |bs| && bs[i] == b;
      assert ps[i] in ps;
    }
  }

  /** The cells of one stage of a sweep, in any order at all, leave the same grid. */
  lemma StageOrderIndependence(d: Dims, g: Grid, s: Sweep, a0: int, a1: int, lo: int, hi: int, stage: int, tick: int, qs: seq<Pos>)
    requires d.Valid() && |g| == Size(d) && AllInner(d, Stage(s, a0, a1, lo, hi, stage, tick))
    requires multiset(qs) == multiset(Stage(s, a0, a1, lo, hi, stage, tick))
    ensures AllInner(d, qs)
    ensures VisitAll(d, g, qs) == VisitAll(d, g, Stage(s, a0, a1, lo, hi, stage, tick))
  {
    hide VisitAll, Flatten, Stage, Apart, AllInner;
    var ps := Stage(s, a0, a1, lo, hi, stage, tick);
    forall p, q | p in ps && q in ps && p != q ensures Apart(p, q) {
      StageApart(s, a0, a1, lo, hi, stage, tick, p, q);
    }
    SinglesApart(d, ps);
    FlattenSingles(ps);
    FlattenSingles(qs);
    MappedOrder((p: Pos) => [p], ps, qs);
    AnyOrder(d, g, Singles(ps), Singles(qs));
  }

  /** The groups, visited in the order `order`. */
  function GroupBlocks(d: Dims, order: seq<nat>, tick: int): (bs: seq<seq<Pos>>)
    requires d.Valid()
    ensures |bs| == |order| && forall i :: 0 <= i < |order| ==> bs[i] == Group(d, order[i], tick)
  {
    Mapped((i: nat) => GroupOrNone(d, i, tick), order)
  }

  function GroupOrNone(d: Dims, index: nat, tick: int): seq<Pos> {
    if d.Valid() then Group(d, index, tick) else []
  }

  function Upto(n: nat): (s: seq<nat>)
    ensures |s| == n && forall i :: 0 <= i < n ==> s[i] == i
  {
    seq(n, i => i)
  }

  lemma {:induction false} FlattenConcat(a: seq<seq<Pos>>, b: seq<seq<Pos>>)
    ensures Flatten(a + b) == Flatten(a) + Flatten(b)
    decreases |a|
  {
    if a == [] {
      assert a + b == b;
    } else {
      assert (a + b)[1..] == a[1..] + b;
      FlattenConcat(a[1..], b);
    }
  }

  lemma {:induction false} GroupsAreBlocks(d: Dims, n: nat, tick: int)
    requires d.Valid()
    ensures Flatten(GroupBlocks(d, Upto(n), tick)) == Groups(d, n, tick)
  {
    hide Group;
    if n > 0 {
      GroupsAreBlocks(d, n - 1, tick);
      var last := [Group(d, n - 1, tick)];
      assert GroupBlocks(d, Upto(n), tick) == GroupBlocks(d, Upto(n - 1), tick) + last;
      FlattenConcat(GroupBlocks(d, Upto(n - 1), tick), last);
      assert last[1..] == [] && Flatten(last) == Group(d, n - 1, tick) + Flatten([]);
    }
  }

  lemma GroupsApart(d: Dims, i: nat, j: nat, tick: int)
    requires d.Valid() && i < d.groupsX * d.groupsY && j < d.groupsX * d.groupsY && i != j
    ensures BlocksApart(Group(d, i, tick), Group(d, j, tick))
  {
    forall p, q | p in Group(d, i, tick) && q in Group(d, j, tick) ensures Apart(p, q) {
      GroupPlaces(d, i, tick, p);
      GroupPlaces(d, j, tick, q);
      assert p.x / 32 != q.x / 32 || p.y / 32 != q.y / 32;
    }
  }

  /** ProcessGroups may take the groups in any order. */
  lemma GroupOrderIndependence(d: Dims, g: Grid, order: seq<nat>, tick: int)
    requires d.Valid() && |g| == Size(d) && multiset(order) == multiset(Upto(d.groupsX * d.groupsY))
    ensures AllInner(d, Flatten(GroupBlocks(d, order, tick)))
    ensures AllInner(d, Groups(d, d.groupsX * d.groupsY, tick))
    ensures VisitAll(d, g, Flatten(GroupBlocks(d, order, tick))) == VisitAll(d, g, Groups(d, d.groupsX * d.groupsY, tick))
  {
    var n := d.groupsX * d.groupsY;
    var bs := GroupBlocks(d, Upto(n), tick);
    GroupsAreBlocks(d, n, tick);
    MappedOrder((i: nat) => GroupOrNone(d, i, tick), Upto(n), order);
    forall b | b in bs ensures AllInner(d, b) {
      var i :| 0 <= i < n && bs[i] == b;
      forall p | p in b ensures Inner(d, p) { GroupPlaces(d, i, tick, p); }
    }
    forall a, b | a in bs && b in bs && a != b ensures BlocksApart(a, b) {
      var i :| 0 <= i < n && bs[i] == a;
      var j :| 0 <= j < n && bs[j] == b;
      GroupsApart(d, i, j, tick);
    }
    AnyOrder(d, g, bs, GroupBlocks(d, order, tick));
  }

  // ----- a whole schedule with its groups in any order and each stage's cells in any order

  /** `qs` has the same stages one after the other, the cells of each in some order. */
  predicate StagesShuffled(s: Sweep, a0: int, a1: int, lo: int, hi: int, n: nat, tick: int, qs: seq<Pos>) {
    if n == 0 then qs == []
    else
      var last := Stage(s, a0, a1, lo, hi, n - 1, tick);
      var k := |qs| - |last|;
      k >= 0 && multiset(qs[k..]) == multiset(last) && StagesShuffled(s, a0, a1, lo, hi, n - 1, tick, qs[..k])
  }

  predicate GroupShuffled(d: Dims, index: nat, tick: int, qs: seq<Pos>)
    requires d.Valid()
  {
    StagesShuffled(GroupSweep(d, index), 1, CELL_GROUP_SIZE - 1, 1, CELL_GROUP_SIZE - 1, STAGES_AMOUNT, tick, qs)
  }

  predicate StripShuffled(d: Dims, vertical: bool, k: int, tick: int, qs: seq<Pos>) {
    var end := k * CELL_GROUP_SIZE;
    StagesShuffled(Sweep(vertical, 0, 0), end - 1, end + 1, 1, (if vertical then d.Height() else d.Width()) - 1, STAGES_AMOUNT, tick, qs)
  }

  predicate StripsShuffled(d: Dims, vertical: bool, n: int, tick: int, qs: seq<Pos>)
    decreases n
  {
    if n <= 1 then qs == []
    else
      var k := |qs| - |Strip(d, vertical, n - 1, tick)|;
      k >= 0 && StripShuffled(d, vertical, n - 1, tick, qs[k..]) && StripsShuffled(d, vertical, n - 1, tick, qs[..k])
  }

  /** Two lists of visits that lead from every grid to the same grid. */
  ghost predicate SameVisits(d: Dims, ps: seq<Pos>, qs: seq<Pos>)
    requires d.Valid() && AllInner(d, ps)
  {
    AllInner(d, qs) && forall g: Grid :: SameFrom(d, g, ps, qs)
  }

  ghost predicate SameFrom(d: Dims, g: Grid, ps: seq<Pos>, qs: seq<Pos>)
    requires d.Valid() && AllInner(d, ps) && AllInner(d, qs)
  {
    |g| == Size(d) ==> VisitAll(d, g, ps) == VisitAll(d, g, qs)
  }

  lemma SameGrid(d: Dims, g: Grid, ps: seq<Pos>, qs: seq<Pos>)
    requires d.Valid() && AllInner(d, ps) && SameVisits(d, ps, qs)
    ensures AllInner(d, qs) && (|g| == Size(d) ==> VisitAll(d, g, ps) == VisitAll(d, g, qs))
  {
    hide VisitAll, Inner;
    assert SameFrom(d, g, ps, qs);
  }

  lemma SameConcatAt(d: Dims, g: Grid, a: seq<Pos>, b: seq<Pos>, c: seq<Pos>, e: seq<Pos>)
    requires d.Valid() && AllInner(d, a) && AllInner(d, b) && SameVisits(d, a, c) && SameVisits(d, b, e)
    ensures AllInner(d, a + b) && AllInner(d, c + e) && SameFrom(d, g, a + b, c + e)
  {
    hide VisitAll, Inner, SameVisits;
    SameGrid(d, g, a, c);
    SameGrid(d, g, b, e);
    if |g| == Size(d) {
      SameGrid(d, VisitAll(d, g, a), b, e);
      VisitAllConcat(d, g, a, b);
      VisitAllConcat(d, g, c, e);
    }
  }

  lemma SameConcat(d: Dims, a: seq<Pos>, b: seq<Pos>, c: seq<Pos>, e: seq<Pos>)
    requires d.Valid() && AllInner(d, a) && AllInner(d, b) && SameVisits(d, a, c) && SameVisits(d, b, e)
    ensures AllInner(d, a + b) && SameVisits(d, a + b, c + e)
  {
    hide VisitAll, Inner, Dims.Valid, Size, SameFrom;
    forall g: Grid ensures SameFrom(d, g, a + b, c + e) {
      SameConcatAt(d, g, a, b, c, e);
    }
  }

  lemma StageSame(d: Dims, s: Sweep, a0: int, a1: int, lo: int, hi: int, stage: int, tick: int, qs: seq<Pos>)
    requires d.Valid() && AllInner(d, Stage(s, a0, a1, lo, hi, stage, tick))
    requires multiset(qs) == multiset(Stage(s, a0, a1, lo, hi, stage, tick))
    ensures SameVisits(d, Stage(s, a0, a1, lo, hi, stage, tick), qs)
  {
    hide VisitAll, Stage;
    forall p | p in qs ensures Inner(d, p) { assert p in multiset(qs); }
    forall g: Grid ensures SameFrom(d, g, Stage(s, a0, a1, lo, hi, stage, tick), qs) {
      if |g| == Size(d) { StageOrderIndependence(d, g, s, a0, a1, lo, hi, stage, tick, qs); }
    }
  }

  lemma {:induction false} StagesSame(d: Dims, s: Sweep, a0: int, a1: int, lo: int, hi: int, n: nat, tick: int, qs: seq<Pos>)
    requires d.Valid() && AllInner(d, Stages(s, a0, a1, lo, hi, n, tick)) && StagesShuffled(s, a0, a1, lo, hi, n, tick, qs)
    ensures SameVisits(d, Stages(s, a0, a1, lo, hi, n, tick), qs)
  {
    hide Stage, SameVisits, Inner;
    if n > 0 {
      var last := Stage(s, a0, a1, lo, hi, n - 1, tick);
      var k := |qs| - |last|;
      var before := Stages(s, a0, a1, lo, hi, n - 1, tick);
      assert forall p :: p in before || p in last ==> p in before + last;
      StagesSame(d, s, a0, a1, lo, hi, n - 1, tick, qs[..k]);
      StageSame(d, s, a0, a1, lo, hi, n - 1, tick, qs[k..]);
      SameConcat(d, before, last, qs[..k], qs[k..]);
      assert qs == qs[..k] + qs[k..];
    } else {
      NothingSame(d);
    }
  }

  lemma NothingSame(d: Dims)
    requires d.Valid()
    ensures AllInner(d, []) && SameVisits(d, [], [])
  {}

  lemma {:induction false} StripsSame(d: Dims, vertical: bool, n: int, tick: int, qs: seq<Pos>)
    requires d.Valid() && AllInner(d, Strips(d, vertical, n, tick)) && StripsShuffled(d, vertical, n, tick, qs)
    ensures SameVisits(d, Strips(d, vertical, n, tick), qs)
    decreases n
  {
    hide Strip, SameVisits, Inner, StripShuffled;
    if n > 1 {
      var last := Strip(d, vertical, n - 1, tick);
      var k := |qs| - |last|;
      var before := Strips(d, vertical, n - 1, tick);
      assert forall p :: p in before || p in last ==> p in before + last;
      StripsSame(d, vertical, n - 1, tick, qs[..k]);
      StripSame(d, vertical, n - 1, tick, qs[k..]);
      SameConcat(d, before, last, qs[..k], qs[k..]);
      assert qs == qs[..k] + qs[k..];
    } else {
      NothingSame(d);
    }
  }

  lemma StripSame(d: Dims, vertical: bool, k: int, tick: int, qs: seq<Pos>)
    requires d.Valid() && AllInner(d, Strip(d, vertical, k, tick)) && StripShuffled(d, vertical, k, tick, qs)
    ensures SameVisits(d, Strip(d, vertical, k, tick), qs)
  {
    hide Stages, SameVisits, Inner, StagesShuffled;
    var end := k * CELL_GROUP_SIZE;
    StagesSame(d, Sweep(vertical, 0, 0), end - 1, end + 1, 1, (if vertical then d.Height() else d.Width()) - 1, STAGES_AMOUNT, tick, qs);
  }

  /** The groups as `order` has them, each shuffled. */
  predicate GroupsShuffled(d: Dims, order: seq<nat>, tick: int, blocks: seq<seq<Pos>>)
    requires d.Valid()
  {
    |blocks| == |order| && forall i :: 0 <= i < |order| ==> GroupShuffled(d, order[i], tick, blocks[i])
  }

  lemma GroupSame(d: Dims, index: nat, tick: int, qs: seq<Pos>)
    requires d.Valid() && index < d.groupsX * d.groupsY && GroupShuffled(d, index, tick, qs)
    ensures AllInner(d, Group(d, index, tick)) && SameVisits(d, Group(d, index, tick), qs)
  {
    hide Stages, SameVisits, StagesShuffled, GroupSweep, Inner, InGroupInterior, GroupOf;
    forall p | p in Group(d, index, tick) ensures Inner(d, p) {
      hide Group;
      GroupPlaces(d, index, tick, p);
    }
    StagesSame(d, GroupSweep(d, index), 1, CELL_GROUP_SIZE - 1, 1, CELL_GROUP_SIZE - 1, STAGES_AMOUNT, tick, qs);
  }

  lemma {:induction false} GroupsSame(d: Dims, order: seq<nat>, tick: int, blocks: seq<seq<Pos>>)
    requires d.Valid() && GroupsShuffled(d, order, tick, blocks) && forall i :: 0 <= i < |order| ==> order[i] < d.groupsX * d.groupsY
    ensures AllInner(d, Flatten(GroupBlocks(d, order, tick)))
    ensures SameVisits(d, Flatten(GroupBlocks(d, order, tick)), Flatten(blocks))
    decreases |order|
  {
    hide Group, SameVisits, Inner, GroupShuffled;
    if order == [] {
      NothingSame(d);
    } else {
      GroupSame(d, order[0], tick, blocks[0]);
      GroupsSame(d, order[1..], tick, blocks[1..]);
      var bs := GroupBlocks(d, order, tick);
      assert bs[1..] == GroupBlocks(d, order[1..], tick);
      SameConcat(d, bs[0], Flatten(bs[1..]), blocks[0], Flatten(blocks[1..]));
    }
  }

  /** A whole tick: take the groups in any order, and within each stage of each group and of each border the cells in any
      order. The grid after it is the same. */
  lemma TickOrderIndependence(d: Dims, g: Grid, tick: int, order: seq<nat>, blocks: seq<seq<Pos>>, columns: seq<Pos>, rows: seq<Pos>)
    requires d.Valid() && |g| == Size(d)
    requires multiset(order) == multiset(Upto(d.groupsX * d.groupsY)) && GroupsShuffled(d, order, tick, blocks)
    requires StripsShuffled(d, true, d.groupsX, tick, columns) && StripsShuffled(d, false, d.groupsY, tick, rows)
    ensures AllInner(d, Flatten(blocks) + columns + rows)
    ensures Finalize(VisitAll(d, g, Flatten(blocks) + columns + rows)) == Tick(d, g, tick)
  {
    hide Groups, Strips, VisitAll, Finalize, Flatten, StripsShuffled, Inner, GroupsShuffled, SameVisits;
    var n := d.groupsX * d.groupsY;
    ScheduleInner(d, tick);
    forall i | 0 <= i < |order| ensures order[i] < n {
      assert order[i] in multiset(Upto(n));
    }
    GroupsReordered(d, order, tick, blocks);
    StripsSame(d, true, d.groupsX, tick, columns);
    StripsSame(d, false, d.groupsY, tick, rows);
    SameConcat(d, Groups(d, n, tick), Strips(d, true, d.groupsX, tick), Flatten(blocks), columns);
    SameConcat(d, Groups(d, n, tick) + Strips(d, true, d.groupsX, tick), Strips(d, false, d.groupsY, tick), Flatten(blocks) + columns, rows);
    SameGrid(d, g, Schedule(d, tick), Flatten(blocks) + columns + rows);
  }

  lemma GroupsReordered(d: Dims, order: seq<nat>, tick: int, blocks: seq<seq<Pos>>)
    requires d.Valid() && multiset(order) == multiset(Upto(d.groupsX * d.groupsY)) && GroupsShuffled(d, order, tick, blocks)
    requires forall i :: 0 <= i < |order| ==> order[i] < d.groupsX * d.groupsY
    ensures AllInner(d, Groups(d, d.groupsX * d.groupsY, tick))
    ensures SameVisits(d, Groups(d, d.groupsX * d.groupsY, tick), Flatten(blocks))
  {
    hide Groups, VisitAll, Flatten, Inner, GroupsShuffled;
    var n := d.groupsX * d.groupsY;
    ScheduleInner(d, tick);
    GroupsSame(d, order, tick, blocks);
    forall g: Grid ensures SameFrom(d, g, Groups(d, n, tick), Flatten(blocks)) {
      if |g| == Size(d) {
        GroupOrderIndependence(d, g, order, tick);
        SameGrid(d, g, Flatten(GroupBlocks(d, order, tick)), Flatten(blocks));
      }
    }
  }

  // ----- ticks

  /** AtmosGrid::Process. */
  function Tick(d: Dims, g: Grid, tick: int): (r: Grid)
    requires d.Valid() && |g| == Size(d)
    ensures |r| == |g|
  {
    ScheduleInner(d, tick);
    Finalize(VisitAll(d, g, Schedule(d, tick)))
  }

  /** One world tick after another: the grid, then the reset of the flows. */
  function Ticks(d: Dims, g: Grid, ticks: seq<int>): (r: Grid)
    requires d.Valid() && |g| == Size(d)
    ensures |r| == |g|
  {
    if ticks == [] then g else ResetFlows(Tick(d, Ticks(d, g, ticks[..|ticks| - 1]), ticks[|ticks| - 1]))
  }

  lemma FinalFlags(c: Cell)
    ensures FinalCell(c).flags == c.flags
  {}

  lemma TickFlags(d: Dims, g: Grid, tick: int)
    requires d.Valid() && |g| == Size(d)
    ensures SameFlags(g, ResetFlows(Tick(d, g, tick)))
  {
    ScheduleInner(d, tick);
    VisitAllFlags(d, g, Schedule(d, tick));
    var h := VisitAll(d, g, Schedule(d, tick));
    forall i: nat | i < |g| ensures Tick(d, g, tick)[i].flags == g[i].flags { FinalFlags(h[i]); }
  }

  lemma VisitAllFlags(d: Dims, g: Grid, ps: seq<Pos>)
    requires d.Valid() && |g| == Size(d) && AllInner(d, ps)
    ensures SameFlags(g, VisitAll(d, g, ps))
  {
    assert Sealed(d, g, {}) by {
      forall p: Pos | Inner(d, p) ensures PlaceSealed(d, g, p, {}) { InnerStar(d, g, p); }
    }
    VisitAllConserves(d, g, ps, {}, 0);
  }

  /** A sealed room keeps its nitrogen, its plasma and CO2, its oxygen and its energy short of the heat of
      burning, over any number of ticks. */
  lemma {:induction false} SealedRoomKeepsMatter(d: Dims, g: Grid, ticks: seq<int>, room: set<nat>, m: nat)
    requires d.Valid() && |g| == Size(d) && Sealed(d, g, room) && m < 4
    ensures RoomMatter(Ticks(d, g, ticks), room, m, |g|) == RoomMatter(g, room, m, |g|)
    ensures Sealed(d, Ticks(d, g, ticks), room)
  {
    if ticks != [] {
      var before := ticks[..|ticks| - 1];
      var t := ticks[|ticks| - 1];
      SealedRoomKeepsMatter(d, g, before, room, m);
      TickKeepsMatter(d, Ticks(d, g, before), t, room, m);
    }
  }

  lemma VisitsKeepMatter(d: Dims, g: Grid, ps: seq<Pos>, room: set<nat>, m: nat)
    requires d.Valid() && |g| == Size(d) && AllInner(d, ps) && Sealed(d, g, room) && m < 4
    ensures RoomMatter(VisitAll(d, g, ps), room, m, |g|) == RoomMatter(g, room, m, |g|)
    ensures Sealed(d, VisitAll(d, g, ps), room)
  {
    hide VisitAll, AllInner, Sealed, RoomMatter, RoomSum;
    VisitAllConserves(d, g, ps, room, 0); VisitAllConserves(d, g, ps, room, 1); VisitAllConserves(d, g, ps, room, 2);
    VisitAllConserves(d, g, ps, room, 3); VisitAllConserves(d, g, ps, room, 4);
    MatterOfSums(g, room, |g|);
    MatterOfSums(VisitAll(d, g, ps), room, |g|);
    SealedByFlags(d, g, VisitAll(d, g, ps), room);
  }

  lemma NoSpaceInside(d: Dims, g: Grid, room: set<nat>)
    requires d.Valid() && |g| == Size(d) && Sealed(d, g, room)
    ensures forall i :: i in room && i < |g| ==> SpaceTile !in g[i].flags
  {}

  lemma TickKeepsMatter(d: Dims, g: Grid, tick: int, room: set<nat>, m: nat)
    requires d.Valid() && |g| == Size(d) && Sealed(d, g, room) && m < 4
    ensures RoomMatter(ResetFlows(Tick(d, g, tick)), room, m, |g|) == RoomMatter(g, room, m, |g|)
    ensures Sealed(d, ResetFlows(Tick(d, g, tick)), room)
  {
    hide VisitAll, AllInner, Sealed, RoomMatter, Schedule, ResetFlows, Finalize;
    ScheduleInner(d, tick);
    var h := VisitAll(d, g, Schedule(d, tick));
    VisitsKeepMatter(d, g, Schedule(d, tick), room, m);
    NoSpaceInside(d, h, room);
    FinalizeMatter(h, room, m, |g|);
    ResetMatter(Finalize(h), room, m, |g|);
    TickFlags(d, g, tick);
    SealedByFlags(d, g, ResetFlows(Tick(d, g, tick)), room);
  }

  /** No gas and no energy ever becomes negative. */
  lemma {:induction false} TicksNonNegative(d: Dims, g: Grid, ticks: seq<int>)
    requires d.Valid() && |g| == Size(d) && NonNegative(g)
    ensures NonNegative(Ticks(d, g, ticks))
  {
    if ticks != [] {
      var before := Ticks(d, g, ticks[..|ticks| - 1]);
      var t := ticks[|ticks| - 1];
      TicksNonNegative(d, g, ticks[..|ticks| - 1]);
      ScheduleInner(d, t);
      VisitAllNonNegative(d, before, Schedule(d, t));
      var h := VisitAll(d, before, Schedule(d, t));
      forall i: nat, k: nat | i < |g| && k <= 4 ensures Amount(Ticks(d, g, ticks)[i], k) >= 0 {
        FinalNonNegative(h[i], k);
      }
    }
  }

  /** After any ticks, the visits of the next one leave every edge balanced and every cell's change in total
      gas equal to the sum of its four flows. */
  lemma TickDivergence(d: Dims, g: Grid, ticks: seq<int>, tick: int)
    requires d.Valid() && |g| == Size(d) && ticks != []
    ensures AllInner(d, Schedule(d, tick))
    ensures var before := Ticks(d, g, ticks);
      var after := VisitAll(d, before, Schedule(d, tick));
      && Balanced(d, after)
      && (forall i :: 0 <= i < |g| ==> Sum4(after[i].gases) - Sum4(before[i].gases) == Sum4(after[i].flows))
  {
    ScheduleInner(d, tick);
    Divergence(d, Ticks(d, g, ticks), Schedule(d, tick));
  }
}
