/** Conservation, flow bookkeeping and order independence of the gas automaton. */
module AtmosTheorems {
  import Arithmetic
  import opened CppInt
  import opened AtmosModel

  // ----- one visit, cell by cell

  lemma {:induction false} SpreadOther(g: Grid, c: nat, nb: seq<nat>, d: nat, i: nat)
    requires Star(g, c, nb) && d <= 4 && i < |g|
    requires forall e :: 0 <= e < d && Open(g, c, nb, e) ==> nb[e] != i
    ensures Spread(g, c, nb, d)[i] == g[i]
  {
    if d > 0 { SpreadOther(g, c, nb, d - 1, i); }
  }

  lemma {:induction false} SpreadNear(g: Grid, c: nat, nb: seq<nat>, d: nat, e: nat)
    requires Star(g, c, nb) && e < d <= 4 && Open(g, c, nb, e)
    ensures Spread(g, c, nb, d)[nb[e]] == NearCell(g, c, nb, e)
  {
    if e < d - 1 { SpreadNear(g, c, nb, d - 1, e); }
  }

  /** What a visit of a passable centre leaves: the shares, the centre's remainder, and nothing else. */
  lemma VisitCells(g: Grid, c: nat, nb: seq<nat>)
    requires Star(g, c, nb) && IsPassable(g[c], CenterBlock)
    ensures var r := VisitAt(g, c, nb);
      && r[c] == CentreCell(g, c, nb)
      && (forall d :: 0 <= d < 4 ==> r[nb[d]] == if Open(g, c, nb, d) then NearCell(g, c, nb, d) else g[nb[d]])
      && (forall i :: 0 <= i < |g| && i != c && i !in nb ==> r[i] == g[i])
  {
    var r := VisitAt(g, c, nb);
    forall d | 0 <= d < 4 ensures r[nb[d]] == if Open(g, c, nb, d) then NearCell(g, c, nb, d) else g[nb[d]] {
      if Open(g, c, nb, d) { SpreadNear(g, c, nb, 4, d); } else { SpreadOther(g, c, nb, 4, nb[d]); }
    }
    forall i | 0 <= i < |g| && i != c && i !in nb ensures r[i] == g[i] { SpreadOther(g, c, nb, 4, i); }
  }

  lemma VisitOutside(g: Grid, c: nat, nb: seq<nat>, i: nat)
    requires Star(g, c, nb) && i < |g| && i != c && i !in nb
    ensures VisitAt(g, c, nb)[i] == g[i]
  {
    if IsPassable(g[c], CenterBlock) { VisitCells(g, c, nb); }
  }

  lemma VisitFlags(g: Grid, c: nat, nb: seq<nat>, i: nat)
    requires Star(g, c, nb) && i < |g|
    ensures VisitAt(g, c, nb)[i].flags == g[i].flags
  {
    if IsPassable(g[c], CenterBlock) {
      VisitCells(g, c, nb);
      if i in nb { var d :| 0 <= d < 4 && nb[d] == i; }
    }
  }

  // ----- what a visit levels

  /** Nothing stands between a cell and its neighbour to the west, north, south or east, and the neighbour is not solid. */
  predicate Joined(a: Cell, b: Cell, d: nat) {
    && CenterBlock !in b.flags
    && (d == 0 ==> LeftBlock !in a.flags && RightBlock !in b.flags)
    && (d == 1 ==> UpBlock !in a.flags && DownBlock !in b.flags)
    && (d == 2 ==> DownBlock !in a.flags && UpBlock !in b.flags)
    && (d == 3 ==> RightBlock !in a.flags && LeftBlock !in b.flags)
  }

  lemma OpenIs(g: Grid, c: nat, nb: seq<nat>, d: nat)
    requires Star(g, c, nb) && d < 4
    ensures Open(g, c, nb, d) <==> Joined(g[c], g[nb[d]], d)
  {}

  function Part(g: Grid, c: nat, nb: seq<nat>, d: nat, k: nat): int
    requires Star(g, c, nb) && d < 4 && k <= 4
  {
    if Joined(g[c], g[nb[d]], d) then Amount(g[nb[d]], k) else 0
  }

  /** What the open neighbourhood holds of gas `k`, or of energy. */
  function Held(g: Grid, c: nat, nb: seq<nat>, k: nat): int
    requires Star(g, c, nb) && k <= 4
  {
    Amount(g[c], k) + Part(g, c, nb, 0, k) + Part(g, c, nb, 1, k) + Part(g, c, nb, 2, k) + Part(g, c, nb, 3, k)
  }

  /** How many cells it has. */
  function Cells(g: Grid, c: nat, nb: seq<nat>): nat
    requires Star(g, c, nb)
  {
    1 + (if Joined(g[c], g[nb[0]], 0) then 1 else 0) + (if Joined(g[c], g[nb[1]], 1) then 1 else 0)
    + (if Joined(g[c], g[nb[2]], 2) then 1 else 0) + (if Joined(g[c], g[nb[3]], 3) then 1 else 0)
  }

  /** From `g` to `r` the open neighbourhood has been levelled in `k`: everybody has the same, and the centre in addition
      what is left over, which is less than one for each cell. */
  ghost predicate Levelled(g: Grid, r: Grid, c: nat, nb: seq<nat>, k: nat)
    requires Star(g, c, nb) && |r| == |g| && k <= 4
  {
    exists level, rest :: LevelledAt(g, r, c, nb, k, level, rest)
  }

  ghost predicate LevelledAt(g: Grid, r: Grid, c: nat, nb: seq<nat>, k: nat, level: int, rest: int)
    requires Star(g, c, nb) && |r| == |g| && k <= 4
  {
    && (forall d :: 0 <= d < 4 && Joined(g[c], g[nb[d]], d) ==> Amount(r[nb[d]], k) == level)
    && Amount(r[c], k) == level + rest && Cells(g, c, nb) * level + rest == Held(g, c, nb, k)
    && (Held(g, c, nb, k) >= 0 ==> 0 <= rest < Cells(g, c, nb))
    && (Held(g, c, nb, k) <= 0 ==> 0 <= -rest < Cells(g, c, nb))
  }

  /** After a visit it burns everywhere in the open neighbourhood, or nowhere: if it burnt somewhere, and it holds both
      plasma and oxygen. */
  ghost predicate Kindled(g: Grid, r: Grid, c: nat, nb: seq<nat>)
    requires Star(g, c, nb) && |r| == |g|
  {
    var burns := (g[c].fire || exists d :: 0 <= d < 4 && Joined(g[c], g[nb[d]], d) && g[nb[d]].fire)
      && Held(g, c, nb, PLASMA) != 0 && Held(g, c, nb, OXYGEN) != 0;
    r[c].fire == burns && forall d :: 0 <= d < 4 && Joined(g[c], g[nb[d]], d) ==> r[nb[d]].fire == burns
  }

  lemma OpenAre(g: Grid, c: nat, nb: seq<nat>)
    requires Star(g, c, nb)
    ensures forall d :: 0 <= d < 4 ==> (Open(g, c, nb, d) <==> Joined(g[c], g[nb[d]], d))
  {
    forall d | 0 <= d < 4 ensures Open(g, c, nb, d) <==> Joined(g[c], g[nb[d]], d) { OpenIs(g, c, nb, d); }
  }

  lemma HeldIs(g: Grid, c: nat, nb: seq<nat>, k: nat)
    requires Star(g, c, nb) && k <= 4
    ensures Total(g, c, nb, k) == Held(g, c, nb, k) && NearSize(g, c, nb) == Cells(g, c, nb)
  {
    OpenAre(g, c, nb);
    hide Open, Amount, Joined;
    assert Gathered(g, c, nb, k, 1) == Part(g, c, nb, 0, k);
    assert Gathered(g, c, nb, k, 2) == Part(g, c, nb, 0, k) + Part(g, c, nb, 1, k);
    assert Gathered(g, c, nb, k, 3) == Part(g, c, nb, 0, k) + Part(g, c, nb, 1, k) + Part(g, c, nb, 2, k);
    assert Degree(g, c, nb, 1) == if Open(g, c, nb, 0) then 1 else 0;
    assert Degree(g, c, nb, 2) == Degree(g, c, nb, 1) + if Open(g, c, nb, 1) then 1 else 0;
    assert Degree(g, c, nb, 3) == Degree(g, c, nb, 2) + if Open(g, c, nb, 2) then 1 else 0;
  }

  lemma Truncated(a: int, n: nat)
    requires n > 0
    ensures n * Div(a, n) + Mod(a, n) == a && (a >= 0 ==> 0 <= Mod(a, n) < n) && (a <= 0 ==> 0 <= -Mod(a, n) < n)
  {}

  /** A visit of a centre that is not solid levels its open neighbourhood, in each gas and in energy. */
  lemma VisitLevels(g: Grid, c: nat, nb: seq<nat>, k: nat)
    requires Star(g, c, nb) && IsPassable(g[c], CenterBlock) && k <= 4
    ensures Levelled(g, VisitAt(g, c, nb), c, nb, k)
  {
    VisitCells(g, c, nb);
    OpenAre(g, c, nb);
    HeldIs(g, c, nb, k);
    CentreAmount(g, c, nb, k);
    Truncated(Total(g, c, nb, k), NearSize(g, c, nb));
    forall d | 0 <= d < 4 ensures Amount(NearCell(g, c, nb, d), k) == Average(g, c, nb, k) { NearAmount(g, c, nb, d, k); }
    hide Div, Mod, VisitAt, NearCell, CentreCell, Amount, Open, Joined, Held, Total, Cells, NearSize;
    assert LevelledAt(g, VisitAt(g, c, nb), c, nb, k, Average(g, c, nb, k), Remains(g, c, nb, k));
  }

  /** Cells that are not joined to the centre, and all cells if the centre is solid, are left as they are. */
  lemma VisitStops(g: Grid, c: nat, nb: seq<nat>)
    requires Star(g, c, nb)
    ensures forall d :: 0 <= d < 4 && !Joined(g[c], g[nb[d]], d) ==> VisitAt(g, c, nb)[nb[d]] == g[nb[d]]
    ensures forall i :: 0 <= i < |g| && i != c && i !in nb ==> VisitAt(g, c, nb)[i] == g[i]
    ensures CenterBlock in g[c].flags ==> VisitAt(g, c, nb) == g
  {
    OpenAre(g, c, nb);
    if CenterBlock !in g[c].flags { VisitCells(g, c, nb); }
  }

  lemma VisitKindles(g: Grid, c: nat, nb: seq<nat>)
    requires Star(g, c, nb) && IsPassable(g[c], CenterBlock)
    ensures Kindled(g, VisitAt(g, c, nb), c, nb)
  {
    VisitCells(g, c, nb);
    OpenAre(g, c, nb);
    HeldIs(g, c, nb, PLASMA);
    HeldIs(g, c, nb, OXYGEN);
    hide VisitAt, Averages, Average, Remains, Inflow, Outflow, Amount, Open, Joined, Held, Total;
  }

  // ----- conservation

  /** The sum of one amount over the cells of `room` below `n`. */
  ghost function RoomSum(g: Grid, room: set<nat>, k: nat, n: nat): int
    requires k <= 4 && n <= |g|
  {
    if n == 0 then 0 else RoomSum(g, room, k, n - 1) + if n - 1 in room then Amount(g[n - 1], k) else 0
  }

  lemma {:induction false} RoomSumUpdate(g: Grid, room: set<nat>, k: nat, n: nat, i: nat, c: Cell)
    requires k <= 4 && n <= |g| && i < |g|
    ensures RoomSum(g[i := c], room, k, n)
      == RoomSum(g, room, k, n) + if i < n && i in room then Amount(c, k) - Amount(g[i], k) else 0
  {
    if n > 0 { RoomSumUpdate(g, room, k, n - 1, i, c); }
  }

  /** No open edge of this star leads into or out of `room`. */
  ghost predicate StarSealed(g: Grid, c: nat, nb: seq<nat>, room: set<nat>)
    requires Star(g, c, nb)
  {
    IsPassable(g[c], CenterBlock) ==> forall d :: 0 <= d < 4 && Open(g, c, nb, d) ==> (nb[d] in room <==> c in room)
  }

  lemma NearAmount(g: Grid, c: nat, nb: seq<nat>, d: nat, k: nat)
    requires Star(g, c, nb) && d < 4 && k <= 4
    ensures Amount(NearCell(g, c, nb, d), k) == Average(g, c, nb, k)
  {}

  lemma CentreAmount(g: Grid, c: nat, nb: seq<nat>, k: nat)
    requires Star(g, c, nb) && k <= 4
    ensures Amount(CentreCell(g, c, nb), k) == Average(g, c, nb, k) + Remains(g, c, nb, k)
  {}

  lemma {:induction false} SpreadSum(g: Grid, c: nat, nb: seq<nat>, room: set<nat>, k: nat, d: nat)
    requires Star(g, c, nb) && IsPassable(g[c], CenterBlock) && StarSealed(g, c, nb, room) && k <= 4 && d <= 4
    ensures RoomSum(Spread(g, c, nb, d), room, k, |g|) == RoomSum(g, room, k, |g|)
      + if c in room then Degree(g, c, nb, d) * Average(g, c, nb, k) - Gathered(g, c, nb, k, d) else 0
  {
    hide Average, NearCell, RoomSum, Amount;
    if d > 0 {
      SpreadSum(g, c, nb, room, k, d - 1);
      if Open(g, c, nb, d - 1) {
        var r := Spread(g, c, nb, d - 1);
        SpreadOther(g, c, nb, d - 1, nb[d - 1]);
        RoomSumUpdate(r, room, k, |g|, nb[d - 1], NearCell(g, c, nb, d - 1));
        NearAmount(g, c, nb, d - 1, k);
        assert (Degree(g, c, nb, d - 1) + 1) * Average(g, c, nb, k)
            == Degree(g, c, nb, d - 1) * Average(g, c, nb, k) + Average(g, c, nb, k);
      }
    }
  }

  /** The averages and the remainder of a star add up to what was there. */
  lemma SharesAddUp(g: Grid, c: nat, nb: seq<nat>, k: nat)
    requires Star(g, c, nb) && k <= 4
    ensures Degree(g, c, nb, 4) * Average(g, c, nb, k) + Average(g, c, nb, k) + Remains(g, c, nb, k) == Total(g, c, nb, k)
  {
    var n, a := NearSize(g, c, nb), Average(g, c, nb, k);
    assert n * a == Degree(g, c, nb, 4) * a + a;
  }

  lemma VisitConserves(g: Grid, c: nat, nb: seq<nat>, room: set<nat>, k: nat)
    requires Star(g, c, nb) && StarSealed(g, c, nb, room) && k <= 4
    ensures RoomSum(VisitAt(g, c, nb), room, k, |g|) == RoomSum(g, room, k, |g|)
  {
    if IsPassable(g[c], CenterBlock) {
      SpreadSum(g, c, nb, room, k, 4);
      SpreadOther(g, c, nb, 4, c);
      RoomSumUpdate(Spread(g, c, nb, 4), room, k, |g|, c, CentreCell(g, c, nb));
      CentreAmount(g, c, nb, k);
      SharesAddUp(g, c, nb, k);
    }
  }

  /** A room: places that no open edge of a possible centre leads into or out of, and no space tile. */
  ghost predicate Sealed(d: Dims, g: Grid, room: set<nat>)
    requires d.Valid() && |g| == Size(d)
  {
    && (forall p: Pos :: Inner(d, p) ==> PlaceSealed(d, g, p, room))
    && (forall i :: i in room && i < |g| ==> SpaceTile !in g[i].flags)
  }

  ghost predicate PlaceSealed(d: Dims, g: Grid, p: Pos, room: set<nat>)
    requires d.Valid() && |g| == Size(d) && Inner(d, p)
  {
    InnerStar(d, g, p);
    StarSealed(g, At(d, p), Neighbours(d, p), room)
  }

  ghost predicate SameFlags(g: Grid, h: Grid) {
    |g| == |h| && forall i :: 0 <= i < |g| ==> g[i].flags == h[i].flags
  }

  lemma SealedByFlags(d: Dims, g: Grid, h: Grid, room: set<nat>)
    requires d.Valid() && |g| == Size(d) && SameFlags(g, h) && Sealed(d, g, room)
    ensures Sealed(d, h, room)
  {
    forall p: Pos | Inner(d, p) ensures PlaceSealed(d, h, p, room) {
      InnerStar(d, g, p);
      InnerStar(d, h, p);
      assert PlaceSealed(d, g, p, room);
      var c, nb := At(d, p), Neighbours(d, p);
      forall e | 0 <= e < 4 ensures Open(h, c, nb, e) == Open(g, c, nb, e) {}
    }
  }

  lemma {:induction false} VisitAllConserves(d: Dims, g: Grid, ps: seq<Pos>, room: set<nat>, k: nat)
    requires d.Valid() && |g| == Size(d) && AllInner(d, ps) && Sealed(d, g, room) && k <= 4
    ensures RoomSum(VisitAll(d, g, ps), room, k, |g|) == RoomSum(g, room, k, |g|)
    ensures SameFlags(g, VisitAll(d, g, ps))
  {
    if ps != [] {
      var n := |ps| - 1;
      VisitAllConserves(d, g, ps[..n], room, k);
      var h := VisitAll(d, g, ps[..n]);
      SealedByFlags(d, g, h, room);
      assert ps[n] in ps && PlaceSealed(d, h, ps[n], room);
      InnerStar(d, h, ps[n]);
      VisitConserves(h, At(d, ps[n]), Neighbours(d, ps[n]), room, k);
      forall i: nat | i < |h| ensures Visit(d, h, ps[n])[i].flags == h[i].flags {
        VisitFlags(h, At(d, ps[n]), Neighbours(d, ps[n]), i);
      }
    }
  }

  /** The four kinds of matter a fire does not create or destroy: nitrogen, plasma with the CO2 it burns to,
      oxygen with the CO2 that holds it, and energy without the heat of burning. */
  ghost function Matter(c: Cell, m: nat): int
    requires m < 4
  {
    if m == 0 then c.gases[NYTROGEN]
    else if m == 1 then c.gases[PLASMA] + c.gases[CO2]
    else if m == 2 then c.gases[OXYGEN] + 2 * c.gases[CO2]
    else c.energy - 4 * c.gases[CO2]
  }

  ghost function RoomMatter(g: Grid, room: set<nat>, m: nat, n: nat): int
    requires m < 4 && n <= |g|
  {
    if n == 0 then 0 else RoomMatter(g, room, m, n - 1) + if n - 1 in room then Matter(g[n - 1], m) else 0
  }

  lemma {:induction false} MatterOfSums(g: Grid, room: set<nat>, n: nat)
    requires n <= |g|
    ensures RoomMatter(g, room, 0, n) == RoomSum(g, room, NYTROGEN, n)
    ensures RoomMatter(g, room, 1, n) == RoomSum(g, room, PLASMA, n) + RoomSum(g, room, CO2, n)
    ensures RoomMatter(g, room, 2, n) == RoomSum(g, room, OXYGEN, n) + 2 * RoomSum(g, room, CO2, n)
    ensures RoomMatter(g, room, 3, n) == RoomSum(g, room, 4, n) - 4 * RoomSum(g, room, CO2, n)
  {
    if n > 0 { MatterOfSums(g, room, n - 1); }
  }

  lemma FinalMatter(c: Cell, m: nat)
    requires m < 4 && SpaceTile !in c.flags
    ensures Matter(FinalCell(c), m) == Matter(c, m)
  {}

  lemma {:induction false} FinalizeMatter(g: Grid, room: set<nat>, m: nat, n: nat)
    requires m < 4 && n <= |g| && forall i :: i in room && i < |g| ==> SpaceTile !in g[i].flags
    ensures RoomMatter(Finalize(g), room, m, n) == RoomMatter(g, room, m, n)
  {
    if n > 0 {
      FinalizeMatter(g, room, m, n - 1);
      if n - 1 in room { FinalMatter(g[n - 1], m); }
    }
  }

  lemma {:induction false} ResetMatter(g: Grid, room: set<nat>, m: nat, n: nat)
    requires m < 4 && n <= |g|
    ensures RoomMatter(ResetFlows(g), room, m, n) == RoomMatter(g, room, m, n)
  {
    if n > 0 { ResetMatter(g, room, m, n - 1); }
  }

  // ----- non-negative amounts

  ghost predicate NonNegative(g: Grid) {
    forall i, k :: 0 <= i < |g| && 0 <= k <= 4 ==> Amount(g[i], k) >= 0
  }

  lemma {:induction false} GatheredNonNegative(g: Grid, c: nat, nb: seq<nat>, k: nat, d: nat)
    requires Star(g, c, nb) && NonNegative(g) && k <= 4 && d <= 4
    ensures Gathered(g, c, nb, k, d) >= 0
  {
    if d > 0 { GatheredNonNegative(g, c, nb, k, d - 1); }
  }

  lemma SharesNonNegative(g: Grid, c: nat, nb: seq<nat>, k: nat)
    requires Star(g, c, nb) && NonNegative(g) && k <= 4
    ensures Average(g, c, nb, k) >= 0 && Remains(g, c, nb, k) >= 0
  {
    GatheredNonNegative(g, c, nb, k, 4);
    var t, n := Total(g, c, nb, k), NearSize(g, c, nb);
    assert t >= 0;
    assert Div(t, n) == t / n && Mod(t, n) == t - n * (t / n) == t % n;
  }

  lemma VisitNonNegative(g: Grid, c: nat, nb: seq<nat>)
    requires Star(g, c, nb) && NonNegative(g)
    ensures NonNegative(VisitAt(g, c, nb))
  {
    if IsPassable(g[c], CenterBlock) {
      VisitCells(g, c, nb);
      var r := VisitAt(g, c, nb);
      forall i: nat, k: nat | i < |r| && k <= 4 ensures Amount(r[i], k) >= 0 {
        SharesNonNegative(g, c, nb, k);
        CentreAmount(g, c, nb, k);
        if i in nb {
          var d :| 0 <= d < 4 && nb[d] == i;
          NearAmount(g, c, nb, d, k);
        }
      }
    }
  }

  lemma {:induction false} VisitAllNonNegative(d: Dims, g: Grid, ps: seq<Pos>)
    requires d.Valid() && |g| == Size(d) && AllInner(d, ps) && NonNegative(g)
    ensures NonNegative(VisitAll(d, g, ps))
  {
    if ps != [] {
      var n := |ps| - 1;
      VisitAllNonNegative(d, g, ps[..n]);
      assert ps[n] in ps;
      InnerStar(d, VisitAll(d, g, ps[..n]), ps[n]);
      VisitNonNegative(VisitAll(d, g, ps[..n]), At(d, ps[n]), Neighbours(d, ps[n]));
    }
  }

  lemma FinalNonNegative(c: Cell, k: nat)
    requires k <= 4 && forall j :: 0 <= j <= 4 ==> Amount(c, j) >= 0
    ensures Amount(FinalCell(c), k) >= 0
  {
    assert Amount(c, 0) >= 0 && Amount(c, 1) >= 0 && Amount(c, 2) >= 0 && Amount(c, 3) >= 0 && Amount(c, 4) >= 0;
    var v := Vent(c);
    assert v.gases[0] >= 0 && v.gases[1] >= 0 && v.gases[2] >= 0 && v.gases[3] >= 0 && v.energy >= 0;
  }

  // ----- what the end of a tick makes of a cell

  predicate AllNat(c: Cell) {
    c.gases[0] >= 0 && c.gases[1] >= 0 && c.gases[2] >= 0 && c.gases[3] >= 0 && c.energy >= 0
  }

  predicate FourFifths(before: int, after: int) {
    5 * after <= 4 * before < 5 * (after + 1)
  }

  /** On a space tile one fifth of everything is lost, elsewhere nothing. */
  predicate Vented(c: Cell, v: Cell) {
    if SpaceTile !in c.flags then v == c
    else
      && v == c.(gases := v.gases, energy := v.energy) && FourFifths(c.energy, v.energy)
      && forall k :: 0 <= k < 4 ==> FourFifths(c.gases[k], v.gases[k])
  }

  /** `b` of plasma is what burns: with the oxygen it needs a thirty-second of what could burn, but one at least. */
  predicate BurnsOff(plasma: int, oxygen: int, b: int) {
    && 1 <= b <= plasma && 2 * b <= oxygen
    && (b == 1 || (32 * b <= plasma && 64 * b <= oxygen))
    && (plasma < 32 * (b + 1) || oxygen < 64 * (b + 1))
  }

  /** A cell on fire with one plasma and two oxygen burns some of it to CO2 and energy; without them the fire goes out. */
  predicate Burnt(c: Cell, r: Cell) {
    var b := c.gases[PLASMA] - r.gases[PLASMA];
    if !c.fire then r == c
    else if c.gases[PLASMA] < 1 || c.gases[OXYGEN] < 2 then r == c.(fire := false)
    else
      && r == c.(gases := r.gases, energy := c.energy + 4 * b) && BurnsOff(c.gases[PLASMA], c.gases[OXYGEN], b)
      && r.gases[OXYGEN] == c.gases[OXYGEN] - 2 * b && r.gases[CO2] == c.gases[CO2] + b && r.gases[NYTROGEN] == c.gases[NYTROGEN]
  }

  /** `q` is the whole part of `a / b`, and 0 if `b` is. */
  predicate WholePart(a: int, b: int, q: int) {
    if b == 0 then q == 0 else q * b <= a < (q + 1) * b
  }

  /** Temperature and pressure fit the amounts: energy over half the degrees of freedom, and total gas times temperature
      over volume. */
  predicate Measured(c: Cell, r: Cell) {
    && r == c.(temperature := r.temperature, pressure := r.pressure)
    && WholePart(100 * r.energy, (5 * r.gases[OXYGEN] + 6 * r.gases[CO2] + 5 * r.gases[NYTROGEN] + 8 * r.gases[PLASMA]) / 2, r.temperature)
    && WholePart((r.gases[0] + r.gases[1] + r.gases[2] + r.gases[3]) * r.temperature, r.volume, r.pressure)
  }

  lemma VentIs(c: Cell)
    requires AllNat(c)
    ensures Vented(c, Vent(c)) && AllNat(Vent(c))
  {}

  lemma BurnIs(c: Cell)
    requires AllNat(c)
    ensures Burnt(c, Burn(c)) && AllNat(Burn(c))
  {}

  lemma WholePartIs(a: nat, b: nat)
    ensures WholePart(a, b, if b == 0 then 0 else Div(a, b)) && (if b == 0 then 0 else Div(a, b)) >= 0
  {
    if b > 0 { Quotient(a, b, a / b, a % b); }
  }

  lemma Quotient(a: nat, b: nat, q: nat, r: nat)
    requires b > 0 && a == b * q + r && r < b
    ensures q * b <= a < (q + 1) * b
  {
    Arithmetic.Commutes(b, q);
    Arithmetic.Distribute(q + 1, 1, b);
  }

  lemma MacroIs(c: Cell)
    requires AllNat(c) && c.volume >= 0
    ensures Measured(c, Macro(c))
  {
    var r := Macro(c);
    WholePartIs(100 * c.energy, Freedom(c) / 2);
    Arithmetic.Grows(0, Sum4(c.gases), r.temperature);
    WholePartIs(Sum4(c.gases) * r.temperature, c.volume);
    hide WholePart;
  }

  /** The end of a tick: first the cell vents, then it burns, then it is measured. */
  lemma FinalIs(c: Cell)
    requires AllNat(c) && c.volume >= 0
    ensures exists v, b :: Vented(c, v) && Burnt(v, b) && Measured(b, FinalCell(c))
  {
    VentIs(c);
    BurnIs(Vent(c));
    hide Vented, Burnt, Measured, Macro, AllNat;
    assert Burn(Vent(c)).volume == c.volume;
    MacroIs(Burn(Vent(c)));
  }

  // ----- flows

  /** From `g` to `h` every cell's total gas changed by what its four flows say. */
  ghost predicate FlowsExplain(g: Grid, h: Grid) {
    |g| == |h| && forall i :: 0 <= i < |g| ==>
      Sum4(h[i].gases) - Sum4(g[i].gases) == Sum4(h[i].flows) - Sum4(g[i].flows)
  }

  ghost function GatheredGas(g: Grid, c: nat, nb: seq<nat>, d: nat): int
    requires Star(g, c, nb) && d <= 4
  {
    Gathered(g, c, nb, 0, d) + Gathered(g, c, nb, 1, d) + Gathered(g, c, nb, 2, d) + Gathered(g, c, nb, 3, d)
  }

  ghost function OutflowBelow(g: Grid, c: nat, nb: seq<nat>, d: nat): int
    requires Star(g, c, nb) && d <= 4
  {
    if d == 0 then 0 else OutflowBelow(g, c, nb, d - 1) + Outflow(g, c, nb, d - 1)
  }

  lemma {:induction false} OutflowSum(g: Grid, c: nat, nb: seq<nat>, d: nat)
    requires Star(g, c, nb) && d <= 4
    ensures OutflowBelow(g, c, nb, d) == GatheredGas(g, c, nb, d) - Degree(g, c, nb, d) * Sum4(Averages(g, c, nb))
  {
    hide Averages, Sum4;
    if d > 0 {
      OutflowSum(g, c, nb, d - 1);
      var a := Sum4(Averages(g, c, nb));
      assert (Degree(g, c, nb, d - 1) + 1) * a == Degree(g, c, nb, d - 1) * a + a;
      if Open(g, c, nb, d - 1) { GasAmounts(g[nb[d - 1]]); }
    }
  }

  lemma GasAmounts(c: Cell)
    ensures Sum4(c.gases) == Amount(c, 0) + Amount(c, 1) + Amount(c, 2) + Amount(c, 3)
  {}

  lemma Distribute(n: int, a: int, b: int, c: int, d: int)
    ensures n * (a + b + c + d) == n * a + n * b + n * c + n * d
  {}

  lemma CentreExplained(g: Grid, c: nat, nb: seq<nat>)
    requires Star(g, c, nb)
    ensures var r := CentreCell(g, c, nb);
      Sum4(r.gases) - Sum4(g[c].gases) == Sum4(r.flows) - Sum4(g[c].flows)
  {
    hide Average, Remains, Gathered, Degree, Outflow, OutflowBelow, Star, Total;
    SharesGas(g, c, nb);
    OutflowSum(g, c, nb, 4);
    Distribute(Degree(g, c, nb, 4), Average(g, c, nb, 0), Average(g, c, nb, 1), Average(g, c, nb, 2), Average(g, c, nb, 3));
    FourOutflows(g, c, nb);
  }

  lemma SharesGas(g: Grid, c: nat, nb: seq<nat>)
    requires Star(g, c, nb)
    ensures forall k: nat :: k < 4 ==>
      Degree(g, c, nb, 4) * Average(g, c, nb, k) + Average(g, c, nb, k) + Remains(g, c, nb, k)
        == Gathered(g, c, nb, k, 4) + g[c].gases[k]
  {
    forall k: nat | k < 4
      ensures Degree(g, c, nb, 4) * Average(g, c, nb, k) + Average(g, c, nb, k) + Remains(g, c, nb, k)
        == Gathered(g, c, nb, k, 4) + g[c].gases[k]
    {
      SharesAddUp(g, c, nb, k);
    }
  }

  lemma FourOutflows(g: Grid, c: nat, nb: seq<nat>)
    requires Star(g, c, nb)
    ensures OutflowBelow(g, c, nb, 4)
      == Outflow(g, c, nb, 0) + Outflow(g, c, nb, 1) + Outflow(g, c, nb, 2) + Outflow(g, c, nb, 3)
  {
    hide Outflow;
    assert OutflowBelow(g, c, nb, 1) == Outflow(g, c, nb, 0);
    assert OutflowBelow(g, c, nb, 2) == OutflowBelow(g, c, nb, 1) + Outflow(g, c, nb, 1);
    assert OutflowBelow(g, c, nb, 3) == OutflowBelow(g, c, nb, 2) + Outflow(g, c, nb, 2);
  }

  lemma NearExplained(g: Grid, c: nat, nb: seq<nat>, d: nat)
    requires Star(g, c, nb) && d < 4
    ensures var r := NearCell(g, c, nb, d);
      Sum4(r.gases) - Sum4(g[nb[d]].gases) == Sum4(r.flows) - Sum4(g[nb[d]].flows)
  {
    hide Averages;
  }

  lemma VisitExplained(g: Grid, c: nat, nb: seq<nat>)
    requires Star(g, c, nb)
    ensures FlowsExplain(g, VisitAt(g, c, nb))
  {
    if IsPassable(g[c], CenterBlock) {
      hide CentreCell, NearCell, VisitAt;
      VisitCells(g, c, nb);
      CentreExplained(g, c, nb);
      var r := VisitAt(g, c, nb);
      forall i: nat | i < |g| ensures Sum4(r[i].gases) - Sum4(g[i].gases) == Sum4(r[i].flows) - Sum4(g[i].flows) {
        if i in nb {
          var d :| 0 <= d < 4 && nb[d] == i;
          NearExplained(g, c, nb, d);
        }
      }
    }
  }

  /** What goes out over an edge comes in on its other side. */
  ghost predicate Balanced(d: Dims, g: Grid)
    requires d.Valid() && |g| == Size(d)
  {
    forall p: Pos, e: nat :: e < 4 && InGrid(d, p) && InGrid(d, Near(p, e)) ==> EdgeBalance(d, g, p, e) == 0
  }

  ghost function EdgeBalance(d: Dims, g: Grid, p: Pos, e: nat): int
    requires d.Valid() && |g| == Size(d) && e < 4 && InGrid(d, p) && InGrid(d, Near(p, e))
  {
    AtIsIndex(d, p);
    AtIsIndex(d, Near(p, e));
    g[At(d, p)].flows[e] + g[At(d, Near(p, e))].flows[3 - e]
  }

  /** What a visit of `q` adds to the flow of `p` in direction `e`. */
  ghost function FlowAdded(d: Dims, g: Grid, q: Pos, p: Pos, e: nat): int
    requires d.Valid() && |g| == Size(d) && Inner(d, q) && e < 4
  {
    InnerStar(d, g, q);
    var c, nb := At(d, q), Neighbours(d, q);
    if !IsPassable(g[c], CenterBlock) then 0
    else if p == q then Outflow(g, c, nb, e)
    else if p == Near(q, 3 - e) && Open(g, c, nb, 3 - e) then Inflow(g, c, nb, 3 - e)
    else 0
  }

  lemma NearInjective(q: Pos, j: nat, k: nat)
    requires j < 4 && k < 4 && Near(q, j) == Near(q, k)
    ensures j == k
  {}

  lemma FlowOfNear(d: Dims, g: Grid, q: Pos, k: nat, e: nat)
    requires d.Valid() && |g| == Size(d) && Inner(d, q) && k < 4 && e < 4
    ensures 0 <= At(d, Near(q, k)) < |g|
    ensures Visit(d, g, q)[At(d, Near(q, k))].flows[e] == g[At(d, Near(q, k))].flows[e] + FlowAdded(d, g, q, Near(q, k), e)
  {
    InnerStar(d, g, q);
    var c, nb := At(d, q), Neighbours(d, q);
    assert nb[k] == At(d, Near(q, k));
    if Near(q, k) == Near(q, 3 - e) { NearInjective(q, k, 3 - e); }
    hide Averages, Average, VisitAt, At, Neighbours, CentreCell;
    if IsPassable(g[c], CenterBlock) { VisitCells(g, c, nb); } else { SolidVisit(g, c, nb); }
  }

  lemma FlowOfCentre(d: Dims, g: Grid, q: Pos, e: nat)
    requires d.Valid() && |g| == Size(d) && Inner(d, q) && e < 4
    ensures 0 <= At(d, q) < |g|
    ensures Visit(d, g, q)[At(d, q)].flows[e] == g[At(d, q)].flows[e] + FlowAdded(d, g, q, q, e)
  {
    InnerStar(d, g, q);
    var c, nb := At(d, q), Neighbours(d, q);
    hide Outflow, Averages, Average, Remains, VisitAt, At, Neighbours, NearCell;
    if IsPassable(g[c], CenterBlock) { VisitCells(g, c, nb); } else { SolidVisit(g, c, nb); }
  }

  /** One side of an edge after a visit of `q`. */
  lemma FlowAfter(d: Dims, g: Grid, q: Pos, p: Pos, e: nat)
    requires d.Valid() && |g| == Size(d) && Inner(d, q) && InGrid(d, p) && e < 4
    ensures 0 <= At(d, p) < |g|
    ensures Visit(d, g, q)[At(d, p)].flows[e] == g[At(d, p)].flows[e] + FlowAdded(d, g, q, p, e)
  {
    AtIsIndex(d, p);
    hide Visit, At, Outflow, Inflow;
    if p == q {
      FlowOfCentre(d, g, q, e);
    } else if k: nat :| k < 4 && p == Near(q, k) {
      FlowOfNear(d, g, q, k, e);
    } else {
      VisitFrame(d, g, q, p);
    }
  }

  lemma VisitBalance(d: Dims, g: Grid, q: Pos, p: Pos, e: nat)
    requires d.Valid() && |g| == Size(d) && Inner(d, q) && e < 4 && InGrid(d, p) && InGrid(d, Near(p, e))
    ensures EdgeBalance(d, Visit(d, g, q), p, e) == EdgeBalance(d, g, p, e)
  {
    FlowAfter(d, g, q, p, e);
    FlowAfter(d, g, q, Near(p, e), 3 - e);
    hide Visit, Inflow, At;
    assert Near(p, e) == q <==> p == Near(q, 3 - e);
    assert Near(p, e) == Near(q, e) <==> p == q;
  }

  /** Starting from flows that are zero, after any visits every edge is balanced and every cell's change in
      total gas is the sum of its four flows. */
  lemma {:induction false} Divergence(d: Dims, g: Grid, ps: seq<Pos>)
    requires d.Valid() && |g| == Size(d) && AllInner(d, ps)
    requires forall i :: 0 <= i < |g| ==> g[i].flows == [0, 0, 0, 0]
    ensures Balanced(d, VisitAll(d, g, ps))
    ensures forall i :: 0 <= i < |g| ==>
      Sum4(VisitAll(d, g, ps)[i].gases) - Sum4(g[i].gases) == Sum4(VisitAll(d, g, ps)[i].flows)
  {
    if ps == [] {
      forall p: Pos, e: nat | e < 4 && InGrid(d, p) && InGrid(d, Near(p, e)) ensures EdgeBalance(d, g, p, e) == 0 {
        AtIsIndex(d, p);
        AtIsIndex(d, Near(p, e));
      }
    } else {
      var n := |ps| - 1;
      assert ps[n] in ps;
      Divergence(d, g, ps[..n]);
      var h := VisitAll(d, g, ps[..n]);
      InnerStar(d, h, ps[n]);
      VisitExplained(h, At(d, ps[n]), Neighbours(d, ps[n]));
      forall p: Pos, e: nat | e < 4 && InGrid(d, p) && InGrid(d, Near(p, e))
        ensures EdgeBalance(d, Visit(d, h, ps[n]), p, e) == 0
      {
        VisitBalance(d, h, ps[n], p, e);
      }
    }
  }

  // ----- order independence

  /** Two centres whose neighbourhoods share no cell. */
  predicate Apart(p: Pos, q: Pos) {
    var dx := if p.x < q.x then q.x - p.x else p.x - q.x;
    var dy := if p.y < q.y then q.y - p.y else p.y - q.y;
    dx + dy > 2
  }

  predicate Touches(p: Pos, r: Pos) {
    r == p || exists e :: 0 <= e < 4 && r == Near(p, e)
  }

  lemma ApartDisjoint(p: Pos, q: Pos, r: Pos)
    requires Apart(p, q) && Touches(p, r)
    ensures !Touches(q, r)
  {}

  lemma NearColours(p: Pos, q: Pos)
    ensures !Apart(p, q) && p != q ==> Mod(p.x + p.y * 2, STAGES_AMOUNT) != Mod(q.x + q.y * 2, STAGES_AMOUNT)
  {}

  /** Equal stage colours keep distinct centres apart. */
  lemma SameColourApart(p: Pos, q: Pos)
    requires p != q && Mod(p.x + p.y * 2, STAGES_AMOUNT) == Mod(q.x + q.y * 2, STAGES_AMOUNT)
    ensures Apart(p, q)
  {
    NearColours(p, q);
  }

  lemma VisitFrame(d: Dims, g: Grid, q: Pos, r: Pos)
    requires d.Valid() && |g| == Size(d) && Inner(d, q) && InGrid(d, r) && !Touches(q, r)
    ensures 0 <= At(d, r) < |g| && Visit(d, g, q)[At(d, r)] == g[At(d, r)]
  {
    AtIsIndex(d, r);
    InnerStar(d, g, q);
    if At(d, r) in Neighbours(d, q) {
      var k :| 0 <= k < 4 && Neighbours(d, q)[k] == At(d, r);
      AtInjective(d, r, Near(q, k));
    }
    if At(d, r) == At(d, q) { AtInjective(d, r, q); }
    VisitOutside(g, At(d, q), Neighbours(d, q), At(d, r));
  }

  ghost predicate AgreeOn(d: Dims, g: Grid, h: Grid, q: Pos)
    requires d.Valid() && Inner(d, q) && |g| == |h| == Size(d)
  {
    InnerStar(d, g, q);
    && g[At(d, q)] == h[At(d, q)]
    && (forall e :: 0 <= e < 4 ==> g[Neighbours(d, q)[e]] == h[Neighbours(d, q)[e]])
  }

  lemma {:induction false} SameStar(g: Grid, h: Grid, c: nat, nb: seq<nat>, k: nat, d: nat)
    requires Star(g, c, nb) && Star(h, c, nb) && k <= 4 && d <= 4
    requires g[c] == h[c] && forall e :: 0 <= e < 4 ==> g[nb[e]] == h[nb[e]]
    ensures Gathered(g, c, nb, k, d) == Gathered(h, c, nb, k, d) && Degree(g, c, nb, d) == Degree(h, c, nb, d)
  {
    if d > 0 { SameStar(g, h, c, nb, k, d - 1); }
  }

  lemma SameShares(g: Grid, h: Grid, c: nat, nb: seq<nat>)
    requires Star(g, c, nb) && Star(h, c, nb)
    requires g[c] == h[c] && forall e :: 0 <= e < 4 ==> g[nb[e]] == h[nb[e]]
    ensures forall k: nat :: k <= 4 ==> Average(g, c, nb, k) == Average(h, c, nb, k) && Remains(g, c, nb, k) == Remains(h, c, nb, k)
    ensures Burns(g, c, nb) == Burns(h, c, nb) && forall d :: 0 <= d < 4 ==> Open(g, c, nb, d) == Open(h, c, nb, d)
  {
    forall k: nat | k <= 4 ensures Total(g, c, nb, k) == Total(h, c, nb, k) && NearSize(g, c, nb) == NearSize(h, c, nb) {
      SameStar(g, h, c, nb, k, 4);
    }
  }

  lemma LocalAt(g: Grid, h: Grid, c: nat, nb: seq<nat>)
    requires Star(g, c, nb) && Star(h, c, nb)
    requires g[c] == h[c] && forall e :: 0 <= e < 4 ==> g[nb[e]] == h[nb[e]]
    ensures VisitAt(g, c, nb)[c] == VisitAt(h, c, nb)[c]
    ensures forall e :: 0 <= e < 4 ==> VisitAt(g, c, nb)[nb[e]] == VisitAt(h, c, nb)[nb[e]]
  {
    hide Average, Remains, Burns, VisitAt;
    if IsPassable(g[c], CenterBlock) {
      SameShares(g, h, c, nb);
      VisitCells(g, c, nb);
      VisitCells(h, c, nb);
      assert CentreCell(g, c, nb) == CentreCell(h, c, nb);
      forall e | 0 <= e < 4 ensures NearCell(g, c, nb, e) == NearCell(h, c, nb, e) {}
    } else {
      SolidVisit(g, c, nb);
      SolidVisit(h, c, nb);
    }
  }

  /** What a visit does to its neighbourhood depends on that neighbourhood alone. */
  lemma VisitLocal(d: Dims, g: Grid, h: Grid, q: Pos)
    requires d.Valid() && Inner(d, q) && |g| == |h| == Size(d) && AgreeOn(d, g, h, q)
    ensures AgreeOn(d, Visit(d, g, q), Visit(d, h, q), q)
  {
    InnerStar(d, g, q);
    InnerStar(d, h, q);
    hide VisitAt, At, Neighbours;
    LocalAt(g, h, At(d, q), Neighbours(d, q));
  }

  lemma SolidVisit(g: Grid, c: nat, nb: seq<nat>)
    requires Star(g, c, nb) && !IsPassable(g[c], CenterBlock)
    ensures VisitAt(g, c, nb) == g
  {}

  lemma AgreeAt(d: Dims, g: Grid, h: Grid, q: Pos, r: Pos)
    requires d.Valid() && Inner(d, q) && |g| == |h| == Size(d) && AgreeOn(d, g, h, q) && Touches(q, r) && InGrid(d, r)
    ensures 0 <= At(d, r) < |g| && g[At(d, r)] == h[At(d, r)]
  {
    AtIsIndex(d, r);
    if r != q {
      var e :| 0 <= e < 4 && r == Near(q, e);
      assert Neighbours(d, q)[e] == At(d, r);
    }
  }

  lemma UntouchedAgree(d: Dims, g: Grid, p: Pos, q: Pos)
    requires d.Valid() && |g| == Size(d) && Inner(d, p) && Inner(d, q) && Apart(p, q)
    ensures AgreeOn(d, g, Visit(d, g, p), q)
  {
    ApartDisjoint(q, p, q);
    VisitFrame(d, g, p, q);
    InnerStar(d, g, q);
    forall e | 0 <= e < 4 ensures g[Neighbours(d, q)[e]] == Visit(d, g, p)[Neighbours(d, q)[e]] {
      assert Touches(q, Near(q, e));
      ApartDisjoint(q, p, Near(q, e));
      VisitFrame(d, g, p, Near(q, e));
    }
  }

  /** Visits of centres that are apart commute. */
  lemma VisitsCommute(d: Dims, g: Grid, p: Pos, q: Pos)
    requires d.Valid() && |g| == Size(d) && Inner(d, p) && Inner(d, q) && (p == q || Apart(p, q))
    ensures Visit(d, Visit(d, g, p), q) == Visit(d, Visit(d, g, q), p)
  {
    if p == q { return; }
    hide Visit, AgreeOn, At, Touches;
    var gp, gq := Visit(d, g, p), Visit(d, g, q);
    var a, b := Visit(d, gp, q), Visit(d, gq, p);
    UntouchedAgree(d, g, p, q);
    VisitLocal(d, g, gp, q);
    UntouchedAgree(d, g, q, p);
    VisitLocal(d, g, gq, p);
    forall i: nat | i < |g| ensures a[i] == b[i] {
      WhereIsPlace(d, i);
      var r := Where(d, i);
      if Touches(p, r) {
        ApartDisjoint(p, q, r);
        AgreeAt(d, gp, b, p, r);
        VisitFrame(d, gp, q, r);
      } else if Touches(q, r) {
        AgreeAt(d, gq, a, q, r);
        VisitFrame(d, gq, p, r);
      } else {
        VisitFrame(d, gp, q, r); VisitFrame(d, g, p, r);
        VisitFrame(d, gq, p, r); VisitFrame(d, g, q, r);
      }
    }
  }

  lemma VisitAllSplit(d: Dims, g: Grid, ps: seq<Pos>, p: Pos)
    requires d.Valid() && |g| == Size(d) && AllInner(d, ps + [p])
    ensures AllInner(d, ps) && Inner(d, p)
    ensures VisitAll(d, g, ps + [p]) == Visit(d, VisitAll(d, g, ps), p)
  {
    assert (ps + [p])[|ps|] == p;
    assert (ps + [p])[..|ps|] == ps;
    forall q | q in ps ensures Inner(d, q) { assert q in ps + [p]; }
  }

  lemma {:induction false} VisitAllConcat(d: Dims, g: Grid, ps: seq<Pos>, qs: seq<Pos>)
    requires d.Valid() && |g| == Size(d) && AllInner(d, ps) && AllInner(d, qs)
    ensures AllInner(d, ps + qs)
    ensures VisitAll(d, g, ps + qs) == VisitAll(d, VisitAll(d, g, ps), qs)
  {
    hide Visit, Inner;
    if qs == [] {
      assert ps + qs == ps;
    } else {
      var n := |qs| - 1;
      VisitAllConcat(d, g, ps, qs[..n]);
      assert ps + qs == ps + qs[..n] + [qs[n]];
      assert qs[n] in qs;
      VisitAllSplit(d, g, ps + qs[..n], qs[n]);
    }
  }

  /** Two lists of visits that may be exchanged. */
  ghost predicate BlocksApart(a: seq<Pos>, b: seq<Pos>) {
    forall p, q :: p in a && q in b ==> p == q || Apart(p, q)
  }

  lemma {:induction false} PastOne(d: Dims, g: Grid, a: seq<Pos>, q: Pos)
    requires d.Valid() && |g| == Size(d) && AllInner(d, a) && Inner(d, q) && BlocksApart(a, [q])
    ensures VisitAll(d, Visit(d, g, q), a) == Visit(d, VisitAll(d, g, a), q)
  {
    if a != [] {
      var n := |a| - 1;
      assert a[n] in a && q in [q];
      PastOne(d, g, a[..n], q);
      VisitsCommute(d, VisitAll(d, g, a[..n]), q, a[n]) by { assert a[n] == q || Apart(a[n], q); }
    }
  }

  lemma {:induction false} BlocksCommute(d: Dims, g: Grid, a: seq<Pos>, b: seq<Pos>)
    requires d.Valid() && |g| == Size(d) && AllInner(d, a) && AllInner(d, b) && BlocksApart(a, b)
    ensures VisitAll(d, VisitAll(d, g, a), b) == VisitAll(d, VisitAll(d, g, b), a)
  {
    if b != [] {
      var n := |b| - 1;
      assert b[n] in b;
      BlocksCommute(d, g, a, b[..n]);
      PastOne(d, VisitAll(d, g, b[..n]), a, b[n]);
    }
  }

  /** The visits of a list of blocks, one block after the other. */
  function Flatten(bs: seq<seq<Pos>>): seq<Pos> {
    if bs == [] then [] else bs[0] + Flatten(bs[1..])
  }

  ghost predicate BlocksInner(d: Dims, bs: seq<seq<Pos>>) {
    forall b :: b in bs ==> AllInner(d, b)
  }

  /** Any two blocks are the same or apart. */
  ghost predicate Exchangeable(bs: seq<seq<Pos>>) {
    forall a, b :: a in bs && b in bs ==> a == b || BlocksApart(a, b)
  }

  lemma {:induction false} FlattenInner(d: Dims, bs: seq<seq<Pos>>)
    requires BlocksInner(d, bs)
    ensures AllInner(d, Flatten(bs))
  {
    if bs != [] {
      assert bs[0] in bs;
      FlattenInner(d, bs[1..]);
    }
  }

  lemma VisitBlocks(d: Dims, g: Grid, b: seq<Pos>, bs: seq<seq<Pos>>)
    requires d.Valid() && |g| == Size(d) && BlocksInner(d, [b] + bs)
    ensures BlocksInner(d, bs) && AllInner(d, b) && AllInner(d, Flatten(bs)) && AllInner(d, Flatten([b] + bs))
    ensures VisitAll(d, g, Flatten([b] + bs)) == VisitAll(d, VisitAll(d, g, b), Flatten(bs))
  {
    hide AllInner, VisitAll;
    forall c | c in bs ensures AllInner(d, c) { assert c in [b] + bs; }
    assert b in [b] + bs && ([b] + bs)[1..] == bs;
    FlattenInner(d, bs);
    VisitAllConcat(d, g, b, Flatten(bs));
  }

  lemma SubExchangeable(bs: seq<seq<Pos>>, cs: seq<seq<Pos>>)
    requires Exchangeable(bs) && forall c :: c in cs ==> c in bs
    ensures Exchangeable(cs)
  {}

  lemma SubInner(d: Dims, bs: seq<seq<Pos>>, cs: seq<seq<Pos>>)
    requires BlocksInner(d, bs) && forall c :: c in cs ==> c in bs
    ensures BlocksInner(d, cs)
  {}

  lemma Swap(d: Dims, g: Grid, a: seq<Pos>, b: seq<Pos>)
    requires d.Valid() && |g| == Size(d) && AllInner(d, a) && AllInner(d, b) && (a == b || BlocksApart(a, b))
    ensures VisitAll(d, VisitAll(d, g, a), b) == VisitAll(d, VisitAll(d, g, b), a)
  {
    if a != b { BlocksCommute(d, g, a, b); }
  }

  /** A block may be moved to the front. */
  lemma {:induction false} ToFront(d: Dims, g: Grid, pre: seq<seq<Pos>>, x: seq<Pos>, post: seq<seq<Pos>>)
    requires d.Valid() && |g| == Size(d) && BlocksInner(d, pre + [x] + post) && Exchangeable(pre + [x] + post)
    ensures AllInner(d, x) && AllInner(d, Flatten(pre + [x] + post)) && AllInner(d, Flatten(pre + post))
    ensures VisitAll(d, g, Flatten(pre + [x] + post)) == VisitAll(d, VisitAll(d, g, x), Flatten(pre + post))
    decreases |pre|
  {
    hide AllInner, VisitAll, Flatten, BlocksApart, BlocksInner;
    if pre == [] {
      assert pre + [x] + post == [x] + post && pre + post == post;
      VisitBlocks(d, g, x, post);
    } else {
      var a, rest := pre[0], pre[1..];
      assert pre + [x] + post == [a] + (rest + [x] + post);
      assert pre + post == [a] + (rest + post);
      VisitBlocks(d, g, a, rest + [x] + post);
      assert (pre + [x] + post)[|pre|] == x && (pre + [x] + post)[0] == a;
      SubExchangeable(pre + [x] + post, rest + [x] + post);
      ToFront(d, VisitAll(d, g, a), rest, x, post);
      SubInner(d, pre + [x] + post, [a] + (rest + post));
      VisitBlocks(d, VisitAll(d, g, x), a, rest + post);
      Swap(d, g, a, x);
    }
  }

  lemma Pulled<T>(pre: seq<T>, x: T, post: seq<T>)
    ensures multiset(pre + [x] + post) == multiset(pre + post) + multiset{x}
  {
    assert multiset(pre + [x] + post) == multiset(pre) + multiset{x} + multiset(post);
    assert multiset(pre + post) == multiset(pre) + multiset(post);
  }

  lemma Cancel<T>(a: multiset<T>, b: multiset<T>, x: T)
    requires a + multiset{x} == b + multiset{x}
    ensures a == b
  {
    assert a == (a + multiset{x}) - multiset{x};
    assert b == (b + multiset{x}) - multiset{x};
  }

  lemma SplitAt<T>(s: seq<T>, k: nat)
    requires k < |s|
    ensures s == s[..k] + [s[k]] + s[k + 1..]
  {}

  lemma Position<T>(s: seq<T>, x: T) returns (k: nat)
    requires x in multiset(s)
    ensures k < |s| && s[k] == x
  {
    k :| 0 <= k < |s| && s[k] == x;
  }

  /** Where the first element of one ordering stands in another one. */
  lemma Find<T>(bs: seq<T>, cs: seq<T>) returns (k: nat)
    requires multiset(bs) == multiset(cs) && cs != []
    ensures k < |bs| && bs[k] == cs[0] && multiset(bs[..k] + bs[k + 1..]) == multiset(cs[1..])
    ensures bs == bs[..k] + [cs[0]] + bs[k + 1..] && cs == [cs[0]] + cs[1..]
  {
    assert cs[0] in multiset(cs);
    k := Position(bs, cs[0]);
    SplitAt(bs, k);
    SplitAt(cs, 0);
    Pulled(bs[..k], cs[0], bs[k + 1..]);
    Pulled(cs[..0], cs[0], cs[1..]);
    assert cs[..0] + cs[1..] == cs[1..];
    Cancel(multiset(bs[..k] + bs[k + 1..]), multiset(cs[1..]), cs[0]);
    assert cs == [cs[0]] + cs[1..];
  }

  /** `f` of every element. */
  function Mapped<A, B>(f: A -> B, s: seq<A>): (r: seq<B>)
    ensures |r| == |s| && forall i :: 0 <= i < |s| ==> r[i] == f(s[i])
  {
    seq(|s|, i requires 0 <= i < |s| => f(s[i]))
  }

  lemma {:induction false} MappedOrder<A, B>(f: A -> B, a: seq<A>, b: seq<A>)
    requires multiset(a) == multiset(b)
    ensures multiset(Mapped(f, a)) == multiset(Mapped(f, b))
    decreases |b|
  {
    if b == [] {
      assert |a| == |multiset(a)| == 0;
      assert a == [];
    } else {
      var k := Find(a, b);
      var pre, post := a[..k], a[k + 1..];
      MappedOrder(f, pre + post, b[1..]);
      assert Mapped(f, a) == Mapped(f, pre) + [f(b[0])] + Mapped(f, post);
      assert Mapped(f, pre + post) == Mapped(f, pre) + Mapped(f, post);
      assert Mapped(f, b) == [] + [f(b[0])] + Mapped(f, b[1..]);
      assert [] + Mapped(f, b[1..]) == Mapped(f, b[1..]);
      Pulled(Mapped(f, pre), f(b[0]), Mapped(f, post));
      Pulled([], f(b[0]), Mapped(f, b[1..]));
    }
  }

  /** Blocks that are pairwise apart give the same grid in every order. */
  lemma {:induction false} AnyOrder(d: Dims, g: Grid, bs: seq<seq<Pos>>, cs: seq<seq<Pos>>)
    requires d.Valid() && |g| == Size(d) && BlocksInner(d, bs) && Exchangeable(bs)
    requires multiset(bs) == multiset(cs)
    ensures AllInner(d, Flatten(bs)) && AllInner(d, Flatten(cs))
    ensures VisitAll(d, g, Flatten(bs)) == VisitAll(d, g, Flatten(cs))
    decreases |cs|
  {
    hide AllInner, VisitAll, Flatten, BlocksApart, BlocksInner, Exchangeable;
    forall b | b in cs ensures b in bs { assert b in multiset(cs); }
    SubInner(d, bs, cs);
    FlattenInner(d, bs);
    if cs == [] {
      assert |bs| == |multiset(bs)| == 0;
    } else {
      var k := Find(bs, cs);
      var pre, post := bs[..k], bs[k + 1..];
      ToFront(d, g, pre, cs[0], post);
      SubExchangeable(bs, pre + post);
      SubInner(d, bs, pre + post);
      AnyOrder(d, VisitAll(d, g, cs[0]), pre + post, cs[1..]);
      assert cs == [cs[0]] + cs[1..];
      VisitBlocks(d, g, cs[0], cs[1..]);
    }
  }
}
