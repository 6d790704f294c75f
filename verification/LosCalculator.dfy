/** Line of sight (sources/core/LosCalculator.cpp): rays on a lattice twice as fine as the
    tiles, from the centre of the viewer's tile to the tile corners of the viewport.
 */
module LosCalculator {
  import opened Arithmetic
  import opened CppInt

  const RAY_MULTIPLIER := 2
  const SIZE_SQ := 12
  const VISIBLE_TILES_SIZE := 4 * (SIZE_SQ + 2) * (SIZE_SQ + 2)

  datatype Position = Position(x: int, y: int, z: int)

  /** A map: its size and the tiles that are not transparent. */
  datatype TileMap = TileMap(width: nat, height: nat, depth: nat, walls: set<Position>)

  predicate CheckBorders(m: TileMap, p: Position) {
    0 <= p.x < m.width && 0 <= p.y < m.height && 0 <= p.z < m.depth
  }

  function CornerPointToPoint(p: Position): Position {
    Position(Div(p.x, RAY_MULTIPLIER), Div(p.y, RAY_MULTIPLIER), Div(p.z, RAY_MULTIPLIER))
  }

  predicate CheckCorner(m: TileMap, p: Position) {
    CheckBorders(m, CornerPointToPoint(p))
  }

  /** The tile under a lattice point lets light through. */
  predicate Clear(m: TileMap, p: Position) {
    CornerPointToPoint(p) !in m.walls
  }

  /** The map's own lookup, only defined inside the map. */
  predicate Istransparent(m: TileMap, p: Position)
    requires CheckCorner(m, p)
  {
    Clear(m, p)
  }

  /** What a ray going in direction (sx, sy) needs at lattice point `p`: of a tile corner one side neighbour,
      of an edge both adjacent tiles, of a tile's inside that tile. */
  predicate Passes(m: TileMap, p: Position, sx: int, sy: int) {
    if Mod(p.x, 2) == 0 && Mod(p.y, 2) == 0 then Clear(m, p.(x := p.x + sx)) || Clear(m, p.(y := p.y + sy))
    else if Mod(p.x, 2) == 0 then Clear(m, p.(x := p.x - sx)) && Clear(m, p.(x := p.x + sx))
    else if Mod(p.y, 2) == 0 then Clear(m, p.(y := p.y - sy)) && Clear(m, p.(y := p.y + sy))
    else Clear(m, p)
  }

  // ----- the ideal ray

  function DeltaX(s: Position, t: Position): nat { Abs(t.x - s.x) }
  function DeltaY(s: Position, t: Position): nat { Abs(t.y - s.y) }
  predicate Wide(s: Position, t: Position) { DeltaX(s, t) > DeltaY(s, t) }
  function Major(s: Position, t: Position): nat { if Wide(s, t) then DeltaX(s, t) else DeltaY(s, t) }
  function Minor(s: Position, t: Position): nat { if Wide(s, t) then DeltaY(s, t) else DeltaX(s, t) }

  /** floor(k * b / a), and what is left. */
  function Floor(k: nat, b: nat, a: nat): nat
    requires a > 0
  {
    k * b / a
  }

  function Rest(k: nat, b: nat, a: nat): int
    requires a > 0
  {
    k * b - Floor(k, b, a) * a
  }

  /** How far the minor coordinate has come after `k` steps of the major one. */
  function MinorSteps(s: Position, t: Position, k: nat): nat
    requires Major(s, t) > 0
  {
    Floor(k, Minor(s, t), Major(s, t))
  }

  /** The k-th point of the ray: the floor of the exact line. */
  function RayPoint(s: Position, t: Position, k: nat): Position
    requires Major(s, t) > 0
  {
    var sx, sy, n := Sign(t.x - s.x), Sign(t.y - s.y), MinorSteps(s, t, k);
    if Wide(s, t) then Position(s.x + k * sx, s.y + n * sy, s.z) else Position(s.x + n * sx, s.y + k * sy, s.z)
  }

  /** The ray from `s` reaches `t`. */
  ghost predicate RayVisible(m: TileMap, s: Position, t: Position) {
    forall k: nat {:trigger RayPoint(s, t, k)} :: k < Major(s, t) ==>
      Passes(m, RayPoint(s, t, k), Sign(t.x - s.x), Sign(t.y - s.y))
  }

  /** A ray ends exactly on its target, in the plane of its source. */
  lemma RayEndsOnTarget(s: Position, t: Position)
    requires Major(s, t) > 0
    ensures RayPoint(s, t, Major(s, t)) == t.(z := s.z) && RayPoint(s, t, 0) == s
  {
    var a, b := Major(s, t), Minor(s, t);
    DivModIs(a * b, a, b, 0);
    FloorStarts(b, a);
  }

  lemma FloorStarts(b: nat, a: nat)
    requires a > 0
    ensures Floor(0, b, a) == 0 && Rest(0, b, a) == 0
  {}

  /** One step of the error accumulator keeps the floor. */
  lemma ErrorStep(k: nat, b: nat, a: nat)
    requires a > 0 && b <= a && 0 <= Rest(k, b, a) < a
    ensures if Rest(k, b, a) + b >= a
            then Floor(k + 1, b, a) == Floor(k, b, a) + 1 && Rest(k + 1, b, a) == Rest(k, b, a) + b - a
            else Floor(k + 1, b, a) == Floor(k, b, a) && Rest(k + 1, b, a) == Rest(k, b, a) + b
  {
    var q, error := Floor(k, b, a), Rest(k, b, a);
    assert k * b == q * a + error;
    assert (k + 1) * b == k * b + b;
    if error + b >= a {
      assert (q + 1) * a == q * a + a;
      DivModIs((k + 1) * b, a, q + 1, error + b - a);
    } else {
      DivModIs((k + 1) * b, a, q, error + b);
    }
  }

  lemma QuotientBelow(n: nat, d: nat, b: nat)
    requires d > 0 && n < b * d
    ensures n / d < b
  {
    var q := n / d;
    assert n == q * d + n % d;
    assert q >= b ==> q * d >= b * d;
  }

  lemma ProductBelow(k: nat, a: nat, b: nat)
    requires k < a && b > 0
    ensures k * b < b * a
  {}

  /** Before its last point a ray has not reached the target's minor coordinate. */
  lemma MinorBelow(s: Position, t: Position, k: nat)
    requires k < Major(s, t) && Minor(s, t) > 0
    ensures MinorSteps(s, t, k) < Minor(s, t)
  {
    var a, b := Major(s, t), Minor(s, t);
    ProductBelow(k, a, b);
    QuotientBelow(k * b, a, b);
  }

  /** The next point of a ray, from what is left over. */
  lemma RayNext(s: Position, t: Position, k: nat)
    requires Major(s, t) > 0 && 0 <= Rest(k, Minor(s, t), Major(s, t)) < Major(s, t)
    ensures var sx, sy, p := Sign(t.x - s.x), Sign(t.y - s.y), RayPoint(s, t, k);
      var a, b := Major(s, t), Minor(s, t);
      var carry := if Rest(k, b, a) + b >= a then 1 else 0;
      && RayPoint(s, t, k + 1) == (if Wide(s, t) then Position(p.x + sx, p.y + carry * sy, p.z) else Position(p.x + carry * sx, p.y + sy, p.z))
      && Rest(k + 1, b, a) == Rest(k, b, a) + b - carry * a
  {
    ErrorStep(k, Minor(s, t), Major(s, t));
    hide Floor, Rest, Major, Minor;
    var sx, sy, n := Sign(t.x - s.x), Sign(t.y - s.y), MinorSteps(s, t, k);
    hide Sign;
    assert (k + 1) * sx == k * sx + sx && (k + 1) * sy == k * sy + sy;
    assert (n + 1) * sx == n * sx + sx && (n + 1) * sy == n * sy + sy;
  }

  // ----- rays of a viewer

  function PosToCorner(pos: int): int { pos * RAY_MULTIPLIER }

  function Source(v: Position): Position {
    Position(PosToCorner(v.x) + RAY_MULTIPLIER / 2, PosToCorner(v.y) + RAY_MULTIPLIER / 2, PosToCorner(v.z) + 1)
  }

  function Corner(c: Position): Position {
    Position(PosToCorner(c.x), PosToCorner(c.y), PosToCorner(c.z))
  }

  lemma Halves(a: int)
    ensures Div(2 * a, 2) == a && (a >= 0 ==> Div(2 * a + 1, 2) == a)
  {}

  lemma Between(c: int, w: nat)
    requires 0 <= c < 2 * w
    ensures 0 <= Div(c, 2) < w
  {}

  /** A coordinate on its way from the viewer's to the corner's, and its neighbours on the way. */
  lemma OnTheWay(v: int, c: int, n: nat, w: nat)
    requires 0 <= v < w && 0 <= c < w && n < Abs(2 * c - (2 * v + 1))
    ensures var s := Sign(2 * c - (2 * v + 1)); var a := 2 * v + 1 + n * s;
      && 0 <= a < 2 * w && 0 <= a + s < 2 * w && (Mod(a, 2) == 0 ==> 0 <= a - s < 2 * w)
  {}

  /** The point `p`, its two neighbours ahead, and on an edge also those behind, are inside the map. */
  predicate LooksInside(m: TileMap, p: Position, sx: int, sy: int) {
    && CheckCorner(m, p) && CheckCorner(m, p.(x := p.x + sx)) && CheckCorner(m, p.(y := p.y + sy))
    && (Mod(p.x, 2) == 0 ==> CheckCorner(m, p.(x := p.x - sx)))
    && (Mod(p.y, 2) == 0 ==> CheckCorner(m, p.(y := p.y - sy)))
  }

  lemma InsideByCoordinates(m: TileMap, p: Position, sx: int, sy: int)
    requires 0 <= p.x < 2 * m.width && 0 <= p.x + sx < 2 * m.width && (Mod(p.x, 2) == 0 ==> 0 <= p.x - sx < 2 * m.width)
    requires 0 <= p.y < 2 * m.height && 0 <= p.y + sy < 2 * m.height && (Mod(p.y, 2) == 0 ==> 0 <= p.y - sy < 2 * m.height)
    requires 0 <= Div(p.z, 2) < m.depth
    ensures LooksInside(m, p, sx, sy)
  {
    forall a | 0 <= a < 2 * m.width ensures 0 <= Div(a, 2) < m.width { Between(a, m.width); }
    forall a | 0 <= a < 2 * m.height ensures 0 <= Div(a, 2) < m.height { Between(a, m.height); }
    hide Div, Mod;
  }

  /** Every lookup a ray of an in-map viewer to an in-map corner makes is inside the map. */
  lemma LookupsInMap(m: TileMap, v: Position, c: Position, k: nat)
    requires CheckBorders(m, v) && CheckBorders(m, c) && k < Major(Source(v), Corner(c))
    ensures var s, t := Source(v), Corner(c);
      LooksInside(m, RayPoint(s, t, k), Sign(t.x - s.x), Sign(t.y - s.y))
  {
    var s, t := Source(v), Corner(c);
    MinorBelow(s, t, k);
    Halves(v.z);
    var n := MinorSteps(s, t, k);
    var i, j := if Wide(s, t) then k else n, if Wide(s, t) then n else k;
    hide MinorSteps, Div, Mod, LooksInside;
    OnTheWay(v.x, c.x, i, m.width);
    OnTheWay(v.y, c.y, j, m.height);
    InsideByCoordinates(m, RayPoint(s, t, k), Sign(t.x - s.x), Sign(t.y - s.y));
  }

  // ----- what walls do to a ray

  /** `n` is the whole part of `k * b / a`. */
  predicate WholePart(k: nat, b: nat, a: nat, n: nat) {
    n * a <= k * b < (n + 1) * a
  }

  /** `p` is on the exact line from `s` to `t` after `k` steps along its longer axis, rounded back to the lattice. */
  predicate OnLine(s: Position, t: Position, k: nat, p: Position) {
    var dx, dy := t.x - s.x, t.y - s.y;
    var nx, ny := Abs(p.x - s.x), Abs(p.y - s.y);
    && p == Position(s.x + nx * Sign(dx), s.y + ny * Sign(dy), s.z)
    && if Abs(dx) > Abs(dy) then nx == k && WholePart(k, Abs(dy), Abs(dx), ny) else ny == k && WholePart(k, Abs(dx), Abs(dy), nx)
  }

  lemma WholePartIs(k: nat, b: nat, a: nat, n: nat)
    requires a > 0
    ensures WholePart(k, b, a, n) <==> Floor(k, b, a) == n
  {
    Distribute(n + 1, 1, a);
    Commutes(n, a);
    if WholePart(k, b, a, n) { DivModIs(k * b, a, n, k * b - a * n); }
    var q := k * b / a;
    assert k * b == a * q + k * b % a;
  }

  lemma Signed(d: int, n: int)
    ensures d != 0 && n >= 0 ==> Abs(n * Sign(d)) == n
    ensures d == 0 ==> n * Sign(d) == 0
    ensures Abs(Sign(d)) <= 1 && (d != 0 <==> Sign(d) != 0)
  {}

  lemma FloorOfNone(k: nat, a: nat)
    requires a > 0
    ensures Floor(k, 0, a) == 0
  {}

  /** The points the walkers visit are those of the exact line. */
  lemma OnLineIff(s: Position, t: Position, k: nat, p: Position)
    requires Major(s, t) > 0
    ensures OnLine(s, t, k, p) <==> p == RayPoint(s, t, k)
  {
    var dx, dy := t.x - s.x, t.y - s.y;
    var n := MinorSteps(s, t, k);
    WholePartIs(k, Minor(s, t), Major(s, t), Abs(p.x - s.x));
    WholePartIs(k, Minor(s, t), Major(s, t), Abs(p.y - s.y));
    if Minor(s, t) == 0 { FloorOfNone(k, Major(s, t)); }
    assert dx == 0 ==> Minor(s, t) == 0 || !Wide(s, t);
    Signed(dx, k);
    Signed(dy, k);
    Signed(dx, n);
    Signed(dy, n);
    hide Floor, WholePart, Sign;
  }

  /** Inside a tile, which is two lattice steps wide. */
  predicate Within(w: Position, p: Position) {
    2 * w.x < p.x < 2 * w.x + 2 && 2 * w.y < p.y < 2 * w.y + 2 && 2 * w.z < p.z < 2 * w.z + 2
  }

  /** On one of its four edges, not at a corner. */
  predicate OnEdge(w: Position, p: Position) {
    && 2 * w.z < p.z < 2 * w.z + 2
    && ((p.x in {2 * w.x, 2 * w.x + 2} && 2 * w.y < p.y < 2 * w.y + 2) || (2 * w.x < p.x < 2 * w.x + 2 && p.y in {2 * w.y, 2 * w.y + 2}))
  }

  /** The tile to the west or east, and north or south, of a corner. */
  function Around(p: Position, east: bool, south: bool): Position {
    Position(if east then p.x / 2 else p.x / 2 - 1, if south then p.y / 2 else p.y / 2 - 1, p.z / 2)
  }

  /** A corner is shut to a ray if both tiles that are looked at are walls: the one south of the corner on the side the
      ray goes to, and the one east of it on that side. To a ray that goes north-west these are the tiles on both sides
      of its way; to one that goes south-east both are the tile ahead. */
  predicate CornerShut(m: TileMap, p: Position, sx: int, sy: int) {
    && p.x % 2 == 0 && p.y % 2 == 0
    && Around(p, sx > 0, true) in m.walls && Around(p, true, sy > 0) in m.walls
  }

  /** A wall stops a ray at point `p`: it is inside a wall or on a wall's edge, or at a corner that is shut. */
  ghost predicate Stopped(m: TileMap, p: Position, sx: int, sy: int) {
    (exists w :: w in m.walls && (Within(w, p) || OnEdge(w, p))) || CornerShut(m, p, sx, sy)
  }

  lemma Halved(a: int)
    ensures a >= 0 ==> Div(a, 2) == a / 2
    ensures a >= 0 ==> Mod(a, 2) == a % 2
  {}

  /** The tile under a point that is not a corner. */
  lemma TileUnder(p: Position, w: Position)
    requires p.x >= 0 && p.y >= 0 && p.z >= 0 && p.z % 2 == 1
    ensures Within(w, p) <==> p.x % 2 == 1 && p.y % 2 == 1 && w == CornerPointToPoint(p)
  {
    Halved(p.x); Halved(p.y); Halved(p.z);
    hide Div;
  }

  lemma TilesBeside(p: Position, w: Position, s: int)
    requires p.x >= 1 && p.y >= 1 && p.z >= 0 && p.z % 2 == 1 && s in {-1, 1}
    ensures p.x % 2 == 0 && p.y % 2 == 1 ==>
      (OnEdge(w, p) <==> w == CornerPointToPoint(p.(x := p.x - s)) || w == CornerPointToPoint(p.(x := p.x + s)))
    ensures p.x % 2 == 1 && p.y % 2 == 0 ==>
      (OnEdge(w, p) <==> w == CornerPointToPoint(p.(y := p.y - s)) || w == CornerPointToPoint(p.(y := p.y + s)))
    ensures p.x % 2 == p.y % 2 ==> !OnEdge(w, p)
  {
    Halved(p.x); Halved(p.y); Halved(p.z); Halved(p.x - 1); Halved(p.x + 1); Halved(p.y - 1); Halved(p.y + 1);
    hide Div;
  }

  lemma TilesAround(p: Position, sx: int, sy: int)
    requires p.x >= 1 && p.y >= 1 && p.z >= 0 && p.x % 2 == 0 && p.y % 2 == 0 && sx in {-1, 1} && sy in {-1, 1}
    ensures CornerPointToPoint(p.(x := p.x + sx)) == Around(p, sx > 0, true)
    ensures CornerPointToPoint(p.(y := p.y + sy)) == Around(p, true, sy > 0)
  {
    Halved(p.x); Halved(p.y); Halved(p.z); Halved(p.x - 1); Halved(p.x + 1); Halved(p.y - 1); Halved(p.y + 1);
    hide Div;
  }

  lemma StoppedIff(m: TileMap, p: Position, sx: int, sy: int)
    requires p.x >= 1 && p.y >= 1 && p.z >= 0 && p.z % 2 == 1 && sx in {-1, 1} && sy in {-1, 1}
    ensures Stopped(m, p, sx, sy) <==> !Passes(m, p, sx, sy)
  {
    forall w ensures Within(w, p) <==> p.x % 2 == 1 && p.y % 2 == 1 && w == CornerPointToPoint(p) { TileUnder(p, w); }
    forall w ensures
      && (p.x % 2 == 0 && p.y % 2 == 1 ==>
           (OnEdge(w, p) <==> w == CornerPointToPoint(p.(x := p.x - sx)) || w == CornerPointToPoint(p.(x := p.x + sx))))
      && (p.x % 2 == 1 && p.y % 2 == 0 ==>
           (OnEdge(w, p) <==> w == CornerPointToPoint(p.(y := p.y - sy)) || w == CornerPointToPoint(p.(y := p.y + sy))))
      && (p.x % 2 == p.y % 2 ==> !OnEdge(w, p))
    {
      TilesBeside(p, w, sx);
      TilesBeside(p, w, sy);
    }
    if p.x % 2 == 0 && p.y % 2 == 0 { TilesAround(p, sx, sy); }
    Halved(p.x); Halved(p.y);
    hide Div, Mod, CornerPointToPoint, Around, Within, OnEdge;
  }

  /** No point of the exact line before its end is stopped. */
  ghost predicate Unstopped(m: TileMap, s: Position, t: Position) {
    forall k: nat, p {:trigger OnLine(s, t, k, p)} ::
      (k < Abs(t.x - s.x) || k < Abs(t.y - s.y)) && OnLine(s, t, k, p) ==> !Stopped(m, p, Sign(t.x - s.x), Sign(t.y - s.y))
  }

  /** No wall is in the way from the centre of tile `v` to the corner `c`. */
  ghost predicate NothingInTheWay(m: TileMap, v: Position, c: Position) {
    Unstopped(m, Position(2 * v.x + 1, 2 * v.y + 1, 2 * v.z + 1), Position(2 * c.x, 2 * c.y, 2 * c.z))
  }

  /** A ray's points are off the border, and no ray is parallel to an axis. */
  lemma PointsOfRay(m: TileMap, v: Position, c: Position, k: nat)
    requires CheckBorders(m, v) && CheckBorders(m, c) && k < Major(Source(v), Corner(c))
    ensures var s, t, p := Source(v), Corner(c), RayPoint(Source(v), Corner(c), k);
      && p.x >= 1 && p.y >= 1 && p.z == 2 * v.z + 1 >= 0 && Sign(t.x - s.x) in {-1, 1} && Sign(t.y - s.y) in {-1, 1}
  {
    var s, t := Source(v), Corner(c);
    MinorBelow(s, t, k);
    var n := MinorSteps(s, t, k);
    var i, j := if Wide(s, t) then k else n, if Wide(s, t) then n else k;
    hide MinorSteps;
    OffTheBorder(v.x, c.x, i);
    OffTheBorder(v.y, c.y, j);
  }

  lemma OffTheBorder(v: int, c: int, n: nat)
    requires 0 <= v && 0 <= c && n < Abs(2 * c - (2 * v + 1))
    ensures 2 * v + 1 + n * Sign(2 * c - (2 * v + 1)) >= 1
  {}

  lemma BeforeEnd(s: Position, t: Position, k: nat)
    ensures k < Major(s, t) <==> k < Abs(t.x - s.x) || k < Abs(t.y - s.y)
  {}

  /** What happens at the ray's k-th point, which is the only one of the exact line there. */
  lemma Verdict(m: TileMap, v: Position, c: Position, k: nat)
    requires CheckBorders(m, v) && CheckBorders(m, c) && k < Major(Source(v), Corner(c))
    ensures var s, t := Source(v), Corner(c);
      var p, sx, sy := RayPoint(s, t, k), Sign(t.x - s.x), Sign(t.y - s.y);
      && OnLine(s, t, k, p) && (Stopped(m, p, sx, sy) <==> !Passes(m, p, sx, sy))
      && forall q :: OnLine(s, t, k, q) ==> q == p
  {
    hide OnLine, RayPoint, Stopped, Passes, CheckBorders, Major, Sign, Source, Corner;
    var s, t := Source(v), Corner(c);
    PointsOfRay(m, v, c, k);
    forall q ensures OnLine(s, t, k, q) <==> q == RayPoint(s, t, k) { OnLineIff(s, t, k, q); }
    StoppedIff(m, RayPoint(s, t, k), Sign(t.x - s.x), Sign(t.y - s.y));
  }

  lemma Ends(v: Position, c: Position)
    ensures Source(v) == Position(2 * v.x + 1, 2 * v.y + 1, 2 * v.z + 1) && Corner(c) == Position(2 * c.x, 2 * c.y, 2 * c.z)
  {}

  /** Walls decide, and nothing else: a viewer sees a corner exactly if no point of the exact line on the way there is
      inside a wall, on the edge of one, or at a corner that walls shut. */
  lemma WallsDecide(m: TileMap, v: Position, c: Position)
    requires CheckBorders(m, v) && CheckBorders(m, c)
    ensures RayVisible(m, Source(v), Corner(c)) <==> NothingInTheWay(m, v, c)
  {
    hide OnLine, RayPoint, Stopped, Passes, CheckBorders, Major, Sign, Source, Corner, Abs;
    var s, t := Source(v), Corner(c);
    var sx, sy := Sign(t.x - s.x), Sign(t.y - s.y);
    Ends(v, c);
    if RayVisible(m, s, t) {
      forall k: nat, p | (k < Abs(t.x - s.x) || k < Abs(t.y - s.y)) && OnLine(s, t, k, p) ensures !Stopped(m, p, sx, sy) {
        BeforeEnd(s, t, k);
        Verdict(m, v, c, k);
        assert Passes(m, RayPoint(s, t, k), sx, sy);
      }
    }
    if Unstopped(m, s, t) {
      forall k: nat | k < Major(s, t) ensures Passes(m, RayPoint(s, t, k), sx, sy) {
        BeforeEnd(s, t, k);
        Verdict(m, v, c, k);
      }
    }
  }

  /** The rule that the comments state (LosCalculator.cpp:90-91, 264): both tiles beside the ray's way are walls. */
  predicate SidesShut(m: TileMap, p: Position, sx: int, sy: int) {
    && p.x % 2 == 0 && p.y % 2 == 0
    && Around(p, sx > 0, sy < 0) in m.walls && Around(p, sx < 0, sy > 0) in m.walls
  }

  /** The code follows that rule for all walls exactly toward the north-west. */
  lemma CornerRule(p: Position, sx: int, sy: int)
    requires p.x % 2 == 0 && p.y % 2 == 0 && sx in {-1, 1} && sy in {-1, 1}
    ensures (forall m :: CornerShut(m, p, sx, sy) <==> SidesShut(m, p, sx, sy)) <==> sx < 0 && sy < 0
  {
    var sides := TileMap(0, 0, 0, {Around(p, sx > 0, sy < 0), Around(p, sx < 0, sy > 0)});
    assert SidesShut(sides, p, sx, sy);
    assert sx > 0 || sy > 0 ==> !CornerShut(sides, p, sx, sy);
  }

  const GAP := TileMap(9, 9, 1, {Position(2, 1, 0), Position(1, 2, 0)})

  lemma Diagonal(k: nat)
    requires k < 5
    ensures RayPoint(Position(3, 3, 1), Position(8, 8, 0), k) == Position(3 + k, 3 + k, 1)
  {
    DivModIs(k * 5, 5, k, 0);
  }

  lemma GapIsClear(k: nat)
    requires k < 5
    ensures Passes(GAP, Position(3 + k, 3 + k, 1), 1, 1)
  {}

  lemma ThroughTheGap()
    ensures NothingInTheWay(GAP, Position(1, 1, 0), Position(4, 4, 0))
  {
    WallsDecide(GAP, Position(1, 1, 0), Position(4, 4, 0));
    Ends(Position(1, 1, 0), Position(4, 4, 0));
    var s, t := Position(3, 3, 1), Position(8, 8, 0);
    assert Major(s, t) == 5 && Sign(t.x - s.x) == 1 && Sign(t.y - s.y) == 1 && CheckBorders(GAP, Position(1, 1, 0)) && CheckBorders(GAP, Position(4, 4, 0));
    hide NothingInTheWay, RayPoint, Passes, Major, GAP;
    forall k: nat | k < Major(s, t) ensures Passes(GAP, RayPoint(s, t, k), 1, 1) {
      Diagonal(k);
      GapIsClear(k);
    }
  }

  lemma NotBack()
    ensures !NothingInTheWay(GAP, Position(2, 2, 0), Position(1, 1, 0))
  {
    WallsDecide(GAP, Position(2, 2, 0), Position(1, 1, 0));
    Ends(Position(2, 2, 0), Position(1, 1, 0));
    hide NothingInTheWay;
    var s, t := Position(5, 5, 1), Position(2, 2, 0);
    assert RayPoint(s, t, 1) == Position(4, 4, 1);
    assert !Passes(GAP, Position(4, 4, 1), -1, -1);
  }

  /** A gap between two walls that touch at a corner lets light through to the south-east and not back. */
  lemma OneWayGap()
    ensures NothingInTheWay(GAP, Position(1, 1, 0), Position(4, 4, 0)) && !NothingInTheWay(GAP, Position(2, 2, 0), Position(1, 1, 0))
  {
    ThroughTheGap();
    NotBack();
  }

  // ----- the walkers

  /** One lattice point of a walk. */
  method Look(m: TileMap, p: Position, sx: int, sy: int) returns (ok: bool)
    requires LooksInside(m, p, sx, sy)
    ensures ok <==> Passes(m, p, sx, sy)
  {
    hide Mod, Div, Clear, CheckCorner;
    if Mod(p.x, RAY_MULTIPLIER) == 0 && Mod(p.y, RAY_MULTIPLIER) == 0 {
      if !Istransparent(m, p.(x := p.x + sx)) && !Istransparent(m, p.(y := p.y + sy)) { return false; }
    } else if Mod(p.x, RAY_MULTIPLIER) == 0 {
      if !Istransparent(m, p.(x := p.x - sx)) || !Istransparent(m, p.(x := p.x + sx)) { return false; }
    } else if Mod(p.y, RAY_MULTIPLIER) == 0 {
      if !Istransparent(m, p.(y := p.y - sy)) || !Istransparent(m, p.(y := p.y + sy)) { return false; }
    } else {
      if !Istransparent(m, p) { return false; }
    }
    return true;
  }

  /** The walk is at the ray's k-th point with what the error term should hold. */
  ghost predicate Along(s: Position, t: Position, k: nat, p: Position, error: int) {
    && k <= Major(s, t) && 0 < Major(s, t) && p == RayPoint(s, t, k)
    && 0 <= error < Major(s, t) && error == Rest(k, Minor(s, t), Major(s, t))
  }

  lemma StartAlong(s: Position, t: Position)
    requires Major(s, t) > 0
    ensures Along(s, t, 0, s, 0)
  {
    RayEndsOnTarget(s, t);
    FloorStarts(Minor(s, t), Major(s, t));
  }

  /** One step of the walk. */
  lemma StepAlong(s: Position, t: Position, k: nat, p: Position, error: int)
    requires Along(s, t, k, p, error) && k < Major(s, t)
    ensures var sx, sy, a, b := Sign(t.x - s.x), Sign(t.y - s.y), Major(s, t), Minor(s, t);
      if error + b >= a
      then Along(s, t, k + 1, Position(p.x + sx, p.y + sy, p.z), error + b - a)
      else Along(s, t, k + 1, if Wide(s, t) then Position(p.x + sx, p.y, p.z) else Position(p.x, p.y + sy, p.z), error + b)
  {
    RayNext(s, t, k);
    hide Rest, Sign, RayPoint;
    assert Minor(s, t) <= Major(s, t);
    hide Minor, Major;
  }

  /** The walk's major coordinate tells how far it is. */
  lemma HowFar(s: Position, t: Position, k: nat, p: Position, error: int)
    requires Along(s, t, k, p, error)
    ensures p.z == s.z && (k == Major(s, t) <==> if Wide(s, t) then p.x == t.x else p.y == t.y)
  {
    hide Rest, MinorSteps;
  }

  /** The ray gets past its first `k` points. */
  ghost predicate PassesUpTo(m: TileMap, s: Position, t: Position, k: nat) {
    forall i: nat {:trigger RayPoint(s, t, i)} :: i < k && i < Major(s, t) ==>
      Passes(m, RayPoint(s, t, i), Sign(t.x - s.x), Sign(t.y - s.y))
  }

  lemma PassesNext(m: TileMap, s: Position, t: Position, k: nat)
    requires k < Major(s, t)
    ensures PassesUpTo(m, s, t, k + 1) <==> PassesUpTo(m, s, t, k) && Passes(m, RayPoint(s, t, k), Sign(t.x - s.x), Sign(t.y - s.y))
    ensures RayVisible(m, s, t) ==> PassesUpTo(m, s, t, k + 1)
    ensures PassesUpTo(m, s, t, k + 1) && k + 1 == Major(s, t) ==> RayVisible(m, s, t)
  {
    hide Passes, RayPoint, Sign, Major;
  }

  lemma StepFacts(m: TileMap, v: Position, c: Position, k: nat, p: Position, error: int)
    requires CheckBorders(m, v) && CheckBorders(m, c) && Along(Source(v), Corner(c), k, p, error) && k < Major(Source(v), Corner(c))
    ensures var s, t := Source(v), Corner(c);
      p == RayPoint(s, t, k) && LooksInside(m, p, Sign(t.x - s.x), Sign(t.y - s.y))
  {
    hide LooksInside, CheckBorders, RayPoint, Sign, Source, Corner;
    LookupsInMap(m, v, c, k);
  }

  method BresenX(m: TileMap, v: Position, c: Position) returns (visible: bool)
    requires CheckBorders(m, v) && CheckBorders(m, c) && Wide(Source(v), Corner(c))
    ensures visible <==> RayVisible(m, Source(v), Corner(c))
  {
    var source, target := Source(v), Corner(c);
    var y, error := source.y, 0;
    var deltaX, deltaErr := Abs(source.x - target.x), Abs(source.y - target.y);
    var deltaStep, incrStep := Sign(target.y - source.y), Sign(target.x - source.x);
    var x := source.x;
    ghost var k := 0;
    assert deltaX == Major(source, target) && deltaErr == Minor(source, target);
    hide Along, Passes, PassesUpTo, RayVisible, LooksInside, RayPoint, CheckBorders, Major, Minor, Wide, Source, Corner, Abs, Sign;
    StartAlong(source, target);
    HowFar(source, target, 0, source, 0);
    assert PassesUpTo(m, source, target, 0) by { NoneToPass(m, source, target); }
    while x != target.x
      invariant Along(source, target, k, Position(x, y, source.z), error) && k <= deltaX && (k == deltaX <==> x == target.x)
      invariant PassesUpTo(m, source, target, k) && (k > 0 && k == deltaX ==> RayVisible(m, source, target))
      decreases deltaX - k
    {
      StepFacts(m, v, c, k, Position(x, y, source.z), error);
      PassesNext(m, source, target, k);
      var ok := Look(m, Position(x, y, source.z), incrStep, deltaStep);
      if !ok { return false; }
      StepAlong(source, target, k, Position(x, y, source.z), error);
      error := error + deltaErr;
      if error >= deltaX {
        y := y + deltaStep;
        error := error - deltaX;
      }
      x := x + incrStep;
      k := k + 1;
      HowFar(source, target, k, Position(x, y, source.z), error);
    }
    return true;
  }

  method BresenY(m: TileMap, v: Position, c: Position) returns (visible: bool)
    requires CheckBorders(m, v) && CheckBorders(m, c) && !Wide(Source(v), Corner(c))
    ensures visible <==> RayVisible(m, Source(v), Corner(c))
  {
    var source, target := Source(v), Corner(c);
    var x, error := source.x, 0;
    var deltaY, deltaErr := Abs(source.y - target.y), Abs(source.x - target.x);
    var deltaStep, incrStep := Sign(target.x - source.x), Sign(target.y - source.y);
    var y := source.y;
    ghost var k := 0;
    assert deltaY == Major(source, target) && deltaErr == Minor(source, target);
    hide Along, Passes, PassesUpTo, RayVisible, LooksInside, RayPoint, CheckBorders, Major, Minor, Wide, Source, Corner, Abs, Sign;
    StartAlong(source, target);
    HowFar(source, target, 0, source, 0);
    assert PassesUpTo(m, source, target, 0) by { NoneToPass(m, source, target); }
    while y != target.y
      invariant Along(source, target, k, Position(x, y, source.z), error) && k <= deltaY && (k == deltaY <==> y == target.y)
      invariant PassesUpTo(m, source, target, k) && (k > 0 && k == deltaY ==> RayVisible(m, source, target))
      decreases deltaY - k
    {
      StepFacts(m, v, c, k, Position(x, y, source.z), error);
      PassesNext(m, source, target, k);
      var ok := Look(m, Position(x, y, source.z), deltaStep, incrStep);
      if !ok { return false; }
      StepAlong(source, target, k, Position(x, y, source.z), error);
      error := error + deltaErr;
      if error >= deltaY {
        x := x + deltaStep;
        error := error - deltaY;
      }
      y := y + incrStep;
      k := k + 1;
      HowFar(source, target, k, Position(x, y, source.z), error);
    }
    return true;
  }

  lemma NoneToPass(m: TileMap, s: Position, t: Position)
    ensures PassesUpTo(m, s, t, 0)
  {}

  method RayTrace(m: TileMap, v: Position, c: Position) returns (visible: bool)
    requires CheckBorders(m, v) && CheckBorders(m, c)
    ensures visible <==> RayVisible(m, Source(v), Corner(c))
    ensures visible <==> NothingInTheWay(m, v, c)
  {
    WallsDecide(m, v, c);
    var source, target := Source(v), Corner(c);
    if Abs(source.x - target.x) > Abs(source.y - target.y) {
      visible := BresenX(m, v, c);
    } else {
      visible := BresenY(m, v, c);
    }
  }
}
