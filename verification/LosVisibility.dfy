/** The visibility list (sources/core/LosCalculator.cpp:218-307): tiles around the corners that rays reach,
    with a bitmap that keeps a tile from being listed twice.
 */
module LosVisibility {
  import CppInt
  import opened LosCalculator

  // ----- the scan, as one list of candidate tiles

  /** Corners scanned: 24 columns of 24. Each offers the four tiles around it. */
  const SIDE := 2 * SIZE_SQ
  const CANDIDATES := 4 * SIDE * SIDE

  function ScanCorner(v: Position, k: nat): Position {
    Position(v.x + k / SIDE - SIZE_SQ, v.y + k % SIDE - SIZE_SQ, v.z)
  }

  function ScanTile(v: Position, n: nat): Position {
    var c := ScanCorner(v, n / 4);
    Position(c.x + n % 4 / 2 - 1, c.y + n % 4 % 2 - 1, c.z)
  }

  /** The bitmap cell of a tile. */
  function VisIndex(v: Position, p: Position): int {
    2 * SIZE_SQ * (p.x - v.x + SIZE_SQ) + (p.y - v.y + SIZE_SQ)
  }

  /** A ray of the viewer reaches corner `c`. */
  ghost predicate Reaches(m: TileMap, v: Position, c: Position) {
    CheckBorders(m, c) && RayVisible(m, Source(v), Corner(c))
  }

  ghost predicate Shows(m: TileMap, v: Position, n: nat) {
    && Reaches(m, v, ScanCorner(v, n / 4))
    && CheckBorders(m, ScanTile(v, n)) && VisIndex(v, ScanTile(v, n)) >= 0
  }

  ghost predicate Taken(v: Position, list: seq<Position>, index: int) {
    exists i :: 0 <= i < |list| && VisIndex(v, list[i]) == index
  }

  /** The list after the first `n` candidates. */
  ghost function Listed(m: TileMap, v: Position, n: nat): seq<Position> {
    if n == 0 then []
    else
      var r, p := Listed(m, v, n - 1), ScanTile(v, n - 1);
      if Shows(m, v, n - 1) && !Taken(v, r, VisIndex(v, p)) then r + [p] else r
  }

  /** The whole list. */
  ghost function VisibleTiles(m: TileMap, v: Position): seq<Position> {
    Listed(m, v, CANDIDATES)
  }

  // ----- what the list holds

  /** Which cells candidates have. */
  lemma CellOfCandidate(v: Position, n: nat)
    requires n < CANDIDATES
    ensures var p := ScanTile(v, n);
      && p.z == v.z && VisIndex(v, p) < VISIBLE_TILES_SIZE
      && (p.x == v.x - SIZE_SQ - 1 || (p.x == v.x - SIZE_SQ && p.y == v.y - SIZE_SQ - 1) ==> VisIndex(v, p) < 0)
  {}

  predicate Sound(m: TileMap, v: Position, r: seq<Position>) {
    && (forall i, j :: 0 <= i < j < |r| ==> VisIndex(v, r[i]) != VisIndex(v, r[j]))
    && (forall i :: 0 <= i < |r| ==> CheckBorders(m, r[i]) && r[i].z == v.z && 0 <= VisIndex(v, r[i]) < VISIBLE_TILES_SIZE)
  }

  lemma OneMore(m: TileMap, v: Position, r: seq<Position>, p: Position)
    requires Sound(m, v, r) && !Taken(v, r, VisIndex(v, p))
    requires CheckBorders(m, p) && p.z == v.z && 0 <= VisIndex(v, p) < VISIBLE_TILES_SIZE
    ensures Sound(m, v, r + [p])
  {
    hide CheckBorders, VisIndex;
  }

  /** No two entries share a bitmap cell, so none is listed twice; all are in the map and in the bitmap. */
  lemma {:induction false} ListIsSound(m: TileMap, v: Position, n: nat)
    requires n <= CANDIDATES
    ensures Sound(m, v, Listed(m, v, n))
  {
    if n > 0 {
      hide Sound, ScanTile, VisIndex, CheckBorders, Reaches, Taken;
      ListIsSound(m, v, n - 1);
      CellOfCandidate(v, n - 1);
      var r, p := Listed(m, v, n - 1), ScanTile(v, n - 1);
      if Shows(m, v, n - 1) && !Taken(v, r, VisIndex(v, p)) {
        OneMore(m, v, r, p);
      }
    }
  }

  /** A cell is taken once some candidate that shows has had it. */
  lemma {:induction false} TakenIff(m: TileMap, v: Position, n: nat, index: int)
    ensures Taken(v, Listed(m, v, n), index) <==>
            exists k: nat :: k < n && Shows(m, v, k) && VisIndex(v, ScanTile(v, k)) == index
  {
    hide Shows, ScanTile, VisIndex;
    if n > 0 {
      TakenIff(m, v, n - 1, index);
      var r, s := Listed(m, v, n - 1), Listed(m, v, n);
      assert forall i :: 0 <= i < |r| ==> s[i] == r[i];
      if Shows(m, v, n - 1) && !Taken(v, r, VisIndex(v, ScanTile(v, n - 1))) {
        assert s[|r|] == ScanTile(v, n - 1);
      }
    }
  }

  /** Candidate `k` shows, and no other tile with its cell showed before it. */
  ghost predicate ComesFirst(m: TileMap, v: Position, k: nat) {
    Shows(m, v, k) && forall j: nat :: j < k && Shows(m, v, j) && VisIndex(v, ScanTile(v, j)) == VisIndex(v, ScanTile(v, k)) ==>
      ScanTile(v, j) == ScanTile(v, k)
  }

  /** `p` comes first among the first `n` candidates. */
  ghost predicate FirstOf(m: TileMap, v: Position, n: nat, p: Position) {
    exists k: nat :: k < n && ComesFirst(m, v, k) && ScanTile(v, k) == p
  }

  /** First come, first listed: exactly which tiles are listed, those that share a cell included. */
  lemma {:induction false} FirstCome(m: TileMap, v: Position, n: nat, p: Position)
    ensures p in Listed(m, v, n) <==> FirstOf(m, v, n, p)
  {
    hide Listed, Shows, ScanTile, VisIndex, Taken, FirstOf, ComesFirst;
    if n == 0 {
      NoneYet(m, v, p);
    } else {
      var q := ScanTile(v, n - 1);
      FirstCome(m, v, n - 1, p);
      FirstNext(m, v, n, p);
      ListedNext(m, v, n, p);
      if Taken(v, Listed(m, v, n - 1), VisIndex(v, q)) {
        var r := Holder(v, Listed(m, v, n - 1), VisIndex(v, q));
        FirstCome(m, v, n - 1, r);
        FirstIsSame(m, v, n - 1, r);
      } else {
        NewlyFirst(m, v, n - 1);
      }
    }
  }

  lemma NoneYet(m: TileMap, v: Position, p: Position)
    ensures p !in Listed(m, v, 0) && !FirstOf(m, v, 0, p)
  {}

  lemma Holder(v: Position, list: seq<Position>, index: int) returns (r: Position)
    requires Taken(v, list, index)
    ensures r in list && VisIndex(v, r) == index
  {
    var i :| 0 <= i < |list| && VisIndex(v, list[i]) == index;
    r := list[i];
  }

  lemma ListedNext(m: TileMap, v: Position, n: nat, p: Position)
    requires n > 0
    ensures var r, q := Listed(m, v, n - 1), ScanTile(v, n - 1);
      p in Listed(m, v, n) <==> p in r || (Shows(m, v, n - 1) && !Taken(v, r, VisIndex(v, q)) && q == p)
  {
    hide Shows, ScanTile, VisIndex, Taken;
  }

  lemma FirstNext(m: TileMap, v: Position, n: nat, p: Position)
    requires n > 0
    ensures FirstOf(m, v, n, p) <==> FirstOf(m, v, n - 1, p) || (ComesFirst(m, v, n - 1) && ScanTile(v, n - 1) == p)
  {
    hide ComesFirst, ScanTile;
  }

  lemma NewlyFirst(m: TileMap, v: Position, n: nat)
    requires !Taken(v, Listed(m, v, n), VisIndex(v, ScanTile(v, n)))
    ensures ComesFirst(m, v, n) <==> Shows(m, v, n)
  {
    TakenIff(m, v, n, VisIndex(v, ScanTile(v, n)));
    hide Listed, Shows, ScanTile, VisIndex, Taken;
  }

  lemma FirstIsSame(m: TileMap, v: Position, n: nat, r: Position)
    requires FirstOf(m, v, n, r) && VisIndex(v, r) == VisIndex(v, ScanTile(v, n))
    ensures ComesFirst(m, v, n) ==> r == ScanTile(v, n)
  {
    hide Shows, ScanTile, VisIndex;
  }

  // ----- tiles that do not share a cell

  /** The part of the viewport where cells are not shared. */
  predicate Proper(v: Position, p: Position) {
    0 <= p.x - v.x + SIZE_SQ < SIDE && 0 <= p.y - v.y + SIZE_SQ < SIDE - 1
  }

  /** A corner of tile `p` that is scanned. */
  predicate ScannedCornerOf(v: Position, p: Position, c: Position) {
    && c.x - p.x in {0, 1} && c.y - p.y in {0, 1} && c.z == v.z && p.z == v.z
    && -SIZE_SQ <= c.x - v.x < SIZE_SQ && -SIZE_SQ <= c.y - v.y < SIZE_SQ
  }

  /** Some scanned corner of the tile is reached by a ray. */
  ghost predicate Seen(m: TileMap, v: Position, p: Position) {
    CheckBorders(m, p) && exists c :: ScannedCornerOf(v, p, c) && Reaches(m, v, c)
  }

  function CandidateOf(v: Position, p: Position, c: Position): nat
    requires ScannedCornerOf(v, p, c)
  {
    4 * (SIDE * (c.x - v.x + SIZE_SQ) + (c.y - v.y + SIZE_SQ)) + 2 * (p.x - c.x + 1) + (p.y - c.y + 1)
  }

  /** The scan offers a tile once for each of its scanned corners. */
  lemma CandidateIs(v: Position, p: Position, c: Position)
    requires ScannedCornerOf(v, p, c)
    ensures var n := CandidateOf(v, p, c); n < CANDIDATES && ScanCorner(v, n / 4) == c && ScanTile(v, n) == p
  {
    var i, j := c.x - v.x + SIZE_SQ, c.y - v.y + SIZE_SQ;
    var d := 2 * (p.x - c.x + 1) + (p.y - c.y + 1);
    assert CandidateOf(v, p, c) / 4 == SIDE * i + j;
    assert (SIDE * i + j) / SIDE == i && (SIDE * i + j) % SIDE == j;
  }

  lemma CandidateCorner(v: Position, n: nat)
    requires n < CANDIDATES
    ensures ScannedCornerOf(v, ScanTile(v, n), ScanCorner(v, n / 4))
  {}

  /** A proper tile's cell is its own. */
  lemma OwnCell(v: Position, p: Position, n: nat)
    requires Proper(v, p) && p.z == v.z && n < CANDIDATES && VisIndex(v, ScanTile(v, n)) == VisIndex(v, p)
    ensures ScanTile(v, n) == p
  {
    CandidateCorner(v, n);
    var q := ScanTile(v, n);
    hide ScanTile;
    assert SIDE * (q.x - p.x) == p.y - q.y;
  }

  /** A tile listed has a scanned corner that a ray reaches; a proper tile with such a corner is listed. */
  lemma ListedIffSeen(m: TileMap, v: Position, p: Position)
    ensures p in VisibleTiles(m, v) ==> Seen(m, v, p)
    ensures Proper(v, p) ==> (p in VisibleTiles(m, v) <==> Seen(m, v, p))
  {
    hide Listed;
    FirstCome(m, v, CANDIDATES, p);
    hide ScannedCornerOf, CheckBorders, Proper, VisIndex, Reaches, ScanTile, ScanCorner;
    if p in VisibleTiles(m, v) {
      var k: nat :| k < CANDIDATES && ComesFirst(m, v, k) && ScanTile(v, k) == p;
      CandidateCorner(v, k);
    }
    if Proper(v, p) && Seen(m, v, p) {
      var c :| ScannedCornerOf(v, p, c) && Reaches(m, v, c);
      CandidateIs(v, p, c);
      var n := CandidateOf(v, p, c);
      ProperIndex(v, p);
      assert p.z == v.z by { PlaneOfCorner(v, p, c); }
      forall j: nat | j < n && VisIndex(v, ScanTile(v, j)) == VisIndex(v, p) ensures ScanTile(v, j) == p {
        OwnCell(v, p, j);
      }
      assert ComesFirst(m, v, n);
    }
  }

  /** Walls alone hide a tile: one with walls in the way to each of its scanned corners is not listed, and a proper tile
      that is in the map and not listed is so hidden. */
  lemma WallsHide(m: TileMap, v: Position, p: Position)
    requires CheckBorders(m, v)
    ensures var hidden := forall c :: ScannedCornerOf(v, p, c) && CheckBorders(m, c) ==> !NothingInTheWay(m, v, c);
      && (hidden ==> p !in VisibleTiles(m, v))
      && (Proper(v, p) && CheckBorders(m, p) ==> (hidden <==> p !in VisibleTiles(m, v)))
  {
    hide VisibleTiles, NothingInTheWay, RayVisible, ScannedCornerOf, CheckBorders, Proper, Source, Corner;
    ListedIffSeen(m, v, p);
    forall c ensures CheckBorders(m, c) ==> (Reaches(m, v, c) <==> NothingInTheWay(m, v, c)) {
      if CheckBorders(m, c) { WallsDecide(m, v, c); }
    }
  }

  lemma PlaneOfCorner(v: Position, p: Position, c: Position)
    requires ScannedCornerOf(v, p, c)
    ensures p.z == v.z
  {}

  lemma ProperIndex(v: Position, p: Position)
    requires Proper(v, p)
    ensures VisIndex(v, p) >= 0
  {}

  /** The viewport's left edge is never listed, whatever a ray reaches. */
  lemma LeftEdgeHidden(m: TileMap, v: Position, p: Position)
    requires p.x == v.x - SIZE_SQ - 1 || (p.x == v.x - SIZE_SQ && p.y == v.y - SIZE_SQ - 1)
    ensures p !in VisibleTiles(m, v)
  {
    hide Listed;
    FirstCome(m, v, CANDIDATES, p);
    hide Reaches, VisIndex, ScanTile, CheckBorders;
    forall k: nat | k < CANDIDATES && ComesFirst(m, v, k) ensures ScanTile(v, k) != p {
      CellOfCandidate(v, k);
    }
  }

  /** A tile that is seen and has a cell: exactly one tile with that cell is listed. */
  lemma OneOfEachCell(m: TileMap, v: Position, p: Position)
    requires Seen(m, v, p) && VisIndex(v, p) >= 0
    ensures exists q :: q in VisibleTiles(m, v) && VisIndex(v, q) == VisIndex(v, p)
    ensures forall q, r :: q in VisibleTiles(m, v) && r in VisibleTiles(m, v) && VisIndex(v, q) == VisIndex(v, r) ==> q == r
  {
    hide Listed;
    ListIsSound(m, v, CANDIDATES);
    hide ScannedCornerOf, CheckBorders, Reaches, ScanTile, ScanCorner, VisIndex;
    var c :| ScannedCornerOf(v, p, c) && Reaches(m, v, c);
    CandidateIs(v, p, c);
    assert Shows(m, v, CandidateOf(v, p, c));
    TakenIff(m, v, CANDIDATES, VisIndex(v, p));
    var i :| 0 <= i < |Listed(m, v, CANDIDATES)| && VisIndex(v, Listed(m, v, CANDIDATES)[i]) == VisIndex(v, p);
    assert Listed(m, v, CANDIDATES)[i] in VisibleTiles(m, v);
  }

  /** In an empty map a tile on the left edge is seen, and yet not listed. */
  lemma EdgeTileMissed()
    ensures var m, v, p := TileMap(30, 30, 1, {}), Position(15, 15, 0), Position(2, 15, 0);
      Seen(m, v, p) && p !in VisibleTiles(m, v)
  {
    var m, v, p := TileMap(30, 30, 1, {}), Position(15, 15, 0), Position(2, 15, 0);
    LeftEdgeHidden(m, v, p);
    hide VisibleTiles;
    var c := Position(3, 15, 0);
    assert ScannedCornerOf(v, p, c);
    hide RayPoint, Major;
    assert Reaches(m, v, c);
  }

  /** Taking walls away never removes a proper tile from the list. */
  lemma FewerWallsShowMore(m: TileMap, walls: set<Position>, v: Position, p: Position)
    requires walls <= m.walls && Proper(v, p) && p in VisibleTiles(m, v)
    ensures p in VisibleTiles(m.(walls := walls), v)
  {
    var o := m.(walls := walls);
    hide VisibleTiles;
    ListedIffSeen(m, v, p);
    ListedIffSeen(o, v, p);
    hide Proper, Passes, RayPoint;
    var c :| ScannedCornerOf(v, p, c) && Reaches(m, v, c);
    hide ScannedCornerOf, Source, Corner;
    var s, t := Source(v), Corner(c);
    forall k: nat | k < Major(s, t)
      ensures Passes(o, RayPoint(s, t, k), CppInt.Sign(t.x - s.x), CppInt.Sign(t.y - s.y))
    {
      FewerWallsPass(m, walls, RayPoint(s, t, k), CppInt.Sign(t.x - s.x), CppInt.Sign(t.y - s.y));
    }
    assert Reaches(o, v, c);
  }

  lemma FewerWallsPass(m: TileMap, walls: set<Position>, p: Position, sx: int, sy: int)
    requires walls <= m.walls && Passes(m, p, sx, sy)
    ensures Passes(m.(walls := walls), p, sx, sy)
  {}

  // ----- the code

  /** The bitmap says which cells are taken. */
  ghost predicate Marks(bitmap: seq<bool>, v: Position, list: seq<Position>) {
    |bitmap| == VISIBLE_TILES_SIZE && forall i :: 0 <= i < |bitmap| ==> (bitmap[i] <==> Taken(v, list, i))
  }

  lemma MarkOne(bitmap: seq<bool>, v: Position, list: seq<Position>, p: Position)
    requires Marks(bitmap, v, list) && 0 <= VisIndex(v, p) < VISIBLE_TILES_SIZE
    ensures Marks(bitmap[VisIndex(v, p) := true], v, list + [p])
  {
    hide VisIndex;
    var more := list + [p];
    forall i | 0 <= i < VISIBLE_TILES_SIZE && i != VisIndex(v, p)
      ensures Taken(v, list, i) <==> Taken(v, more, i)
    {
      assert forall j :: 0 <= j < |list| ==> more[j] == list[j];
    }
    assert more[|list|] == p;
  }

  lemma CandidateAt(v: Position, k: nat, dx: int, dy: int)
    requires -1 <= dx <= 0 && -1 <= dy <= 0
    ensures var n, at := 4 * k + 2 * (dx + 1) + (dy + 1), ScanCorner(v, k);
      n / 4 == k && ScanTile(v, n) == Position(at.x + dx, at.y + dy, at.z)
  {
    hide ScanCorner;
    FourthOf(k, 2 * (dx + 1) + (dy + 1));
  }

  lemma FourthOf(k: nat, d: nat)
    requires d < 4
    ensures (4 * k + d) / 4 == k && (4 * k + d) % 4 == d
  {}

  /** The corner scanned at (i, j), in lattice points and back. */
  lemma CornerAt(v: Position, i: int, j: int)
    requires -SIZE_SQ <= i < SIZE_SQ && -SIZE_SQ <= j < SIZE_SQ
    ensures var k, c := SIDE * (i + SIZE_SQ) + (j + SIZE_SQ), Position(v.x + i, v.y + j, v.z);
      4 * k + 4 <= CANDIDATES && ScanCorner(v, k) == c && CornerPointToPoint(Corner(c)) == c
  {
    var k := SIDE * (i + SIZE_SQ) + (j + SIZE_SQ);
    assert k / SIDE == i + SIZE_SQ && k % SIDE == j + SIZE_SQ;
    Halves(v.x + i);
    Halves(v.y + j);
    Halves(v.z);
    hide CppInt.Div;
  }

  lemma SourceAt(m: TileMap, v: Position)
    requires CheckBorders(m, v)
    ensures CornerPointToPoint(Source(v)) == v
  {
    Halves(v.x);
    Halves(v.y);
    Halves(v.z);
    hide CppInt.Div;
  }

  ghost function AfterCorners(m: TileMap, v: Position, k: nat): seq<Position> {
    Listed(m, v, 4 * k)
  }

  lemma CornerSkipped(m: TileMap, v: Position, k: nat)
    requires !Reaches(m, v, ScanCorner(v, k))
    ensures AfterCorners(m, v, k + 1) == AfterCorners(m, v, k)
  {
    hide ScanTile, ScanCorner, Reaches, VisIndex;
    assert Listed(m, v, 4 * k + 1) == Listed(m, v, 4 * k);
    assert Listed(m, v, 4 * k + 2) == Listed(m, v, 4 * k + 1);
    assert Listed(m, v, 4 * k + 3) == Listed(m, v, 4 * k + 2);
  }

  /** What the next candidate does. */
  lemma NextCandidate(m: TileMap, v: Position, k: nat, dx: int, dy: int)
    requires -1 <= dx <= 0 && -1 <= dy <= 0 && 4 * k + 4 <= CANDIDATES && Reaches(m, v, ScanCorner(v, k))
    ensures var n, at := 4 * k + 2 * (dx + 1) + (dy + 1), ScanCorner(v, k);
      var p := Position(at.x + dx, at.y + dy, at.z);
      && VisIndex(v, p) < VISIBLE_TILES_SIZE
      && Listed(m, v, n + 1) ==
        (if CheckBorders(m, p) && VisIndex(v, p) >= 0 && !Taken(v, Listed(m, v, n), VisIndex(v, p)) then Listed(m, v, n) + [p] else Listed(m, v, n))
  {
    CandidateAt(v, k, dx, dy);
    CellOfCandidate(v, 4 * k + 2 * (dx + 1) + (dy + 1));
    hide Reaches, ScanTile, ScanCorner, VisIndex, CheckBorders, Taken;
  }

  /** The four tiles of the k-th scanned corner, which a ray has reached. */
  method MarkTilesOfCornerAsVisible(m: TileMap, retlist: seq<Position>, at: Position, center: Position, visibility: array<bool>,
                                    ghost before: seq<Position>, ghost k: nat)
    returns (list: seq<Position>)
    requires at == ScanCorner(center, k) && Reaches(m, center, at) && 4 * k + 4 <= CANDIDATES
    requires retlist == before + AfterCorners(m, center, k) && Marks(visibility[..], center, AfterCorners(m, center, k))
    modifies visibility
    ensures list == before + AfterCorners(m, center, k + 1) && Marks(visibility[..], center, AfterCorners(m, center, k + 1))
  {
    hide Passes, ScanCorner, CheckBorders, Reaches, Taken, Listed;
    list := retlist;
    ghost var n := 4 * k;
    for dx := -1 to 1
      invariant n == 4 * k + 2 * (dx + 1)
      invariant list == before + Listed(m, center, n) && Marks(visibility[..], center, Listed(m, center, n))
    {
      for dy := -1 to 1
        invariant n == 4 * k + 2 * (dx + 1) + (dy + 1)
        invariant list == before + Listed(m, center, n) && Marks(visibility[..], center, Listed(m, center, n))
      {
        NextCandidate(m, center, k, dx, dy);
        ghost var was := Listed(m, center, n);
        n := n + 1;
        hide Listed, ScanCorner, CheckBorders, Reaches, Taken, AfterCorners;
        var p := Position(at.x + dx, at.y + dy, at.z);
        if !CheckBorders(m, p) { continue; }
        var visX, visY := p.x - center.x + SIZE_SQ, p.y - center.y + SIZE_SQ;
        var visIdx := 2 * SIZE_SQ * visX + visY;
        if visIdx < 0 { continue; }
        if visibility[visIdx] { continue; }
        MarkOne(visibility[..], center, was, p);
        list := list + [p];
        visibility[visIdx] := true;
      }
    }
  }

  /** The visible tiles of a viewer, after whatever the list held. */
  method Calculate(m: TileMap, before: seq<Position>, posx: int, posy: int, posz: int) returns (retlist: seq<Position>)
    requires CheckBorders(m, Position(posx, posy, posz))
    ensures retlist == before + VisibleTiles(m, Position(posx, posy, posz))
  {
    hide AfterCorners, Listed, VisIndex, VisibleTiles, Passes, Taken, ScanCorner, Marks, CppInt.Div, CppInt.Mod, CppInt.Abs, CppInt.Sign, Major, Source, Corner, RayVisible, CornerPointToPoint, CheckBorders;
    retlist := before;
    var v := Position(posx, posy, posz);
    var visible := new bool[VISIBLE_TILES_SIZE](_ => false);
    ghost var k := 0;
    SourceAt(m, v);
    NothingMarked(m, visible[..], v);
    for i := -SIZE_SQ to SIZE_SQ
      invariant k == SIDE * (i + SIZE_SQ)
      invariant retlist == before + AfterCorners(m, v, k) && Marks(visible[..], v, AfterCorners(m, v, k))
    {
      for j := -SIZE_SQ to SIZE_SQ
        invariant k == SIDE * (i + SIZE_SQ) + (j + SIZE_SQ)
        invariant retlist == before + AfterCorners(m, v, k) && Marks(visible[..], v, AfterCorners(m, v, k))
      {
        CornerAt(v, i, j);
        var c := Position(posx + i, posy + j, posz);
        var p := Corner(c);
        var ok := CheckCorner(m, p);
        if ok {
          ok := RayTrace(m, v, c);
        }
        if ok {
          retlist := MarkTilesOfCornerAsVisible(m, retlist, CornerPointToPoint(p), CornerPointToPoint(Source(v)), visible, before, k);
        } else {
          CornerSkipped(m, v, k);
        }
        k := k + 1;
      }
    }
    AllCorners(m, v);
  }

  lemma NothingMarked(m: TileMap, bitmap: seq<bool>, v: Position)
    requires |bitmap| == VISIBLE_TILES_SIZE && forall i :: 0 <= i < |bitmap| ==> !bitmap[i]
    ensures AfterCorners(m, v, 0) == [] && Marks(bitmap, v, [])
  {}

  lemma AllCorners(m: TileMap, v: Position)
    ensures AfterCorners(m, v, SIDE * SIDE) == VisibleTiles(m, v)
  {
    hide Listed;
  }
}
