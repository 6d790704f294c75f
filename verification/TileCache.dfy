/** What a tile remembers about its contents (sources/core/objects/Tile.cpp:283-329, 361-387, 443-477): five levels that
    tell what can pass, and the flags the atmosphere reads. Objects change their own levels behind it
    (objects/MaterialObject.h:38-66).
 */
module TileCache {

  // ----- levels

  datatype Side = ALL | NORTH | SOUTH | WEST | EAST

  const AIR := 10
  const FULL := 100

  datatype Levels = Levels(all: int, up: int, down: int, left: int, right: int)

  predicate CanPass(block: int, item: int) { block >= item }

  function GetPassable(l: Levels, side: Side): int {
    match side
    case ALL => l.all
    case NORTH => l.up
    case SOUTH => l.down
    case WEST => l.left
    case EAST => l.right
  }

  function WithPassable(l: Levels, side: Side, level: int): Levels {
    match side
    case ALL => l.(all := level)
    case NORTH => l.(up := level)
    case SOUTH => l.(down := level)
    case WEST => l.(left := level)
    case EAST => l.(right := level)
  }

  function Min(a: int, b: int): int { if b < a then b else a }

  function Lower(a: Levels, b: Levels): Levels {
    Levels(Min(a.all, b.all), Min(a.up, b.up), Min(a.down, b.down), Min(a.left, b.left), Min(a.right, b.right))
  }

  const NOTHING := Levels(FULL, FULL, FULL, FULL, FULL)

  // ----- flags

  const UP_BLOCK: bv8 := 1
  const DOWN_BLOCK: bv8 := 2
  const LEFT_BLOCK: bv8 := 4
  const RIGHT_BLOCK: bv8 := 8
  const CENTER_BLOCK: bv8 := 16
  const SPACE_TILE: bv8 := 32
  const NO_OBJECTS: bv8 := 64

  function Flag(on: bool, bit: bv8): bv8 { if on then bit else 0 }

  /** The flags of the first `i` of the five directions. */
  function BlockFlags(l: Levels, i: nat): bv8 {
    Flag(i > 0 && !CanPass(l.all, AIR), CENTER_BLOCK) | Flag(i > 1 && !CanPass(l.up, AIR), UP_BLOCK)
    | Flag(i > 2 && !CanPass(l.down, AIR), DOWN_BLOCK) | Flag(i > 3 && !CanPass(l.left, AIR), LEFT_BLOCK)
    | Flag(i > 4 && !CanPass(l.right, AIR), RIGHT_BLOCK)
  }

  function FlagsOf(l: Levels, space: bool, empty: bool): bv8 {
    BlockFlags(l, 5) | Flag(space, SPACE_TILE) | Flag(empty, NO_OBJECTS)
  }

  // ----- tiles and objects

  /** An object: its levels, the tile it thinks it is on, and for a turf whether it is open space. */
  datatype Material = Material(levels: Levels, owner: nat, space: bool)
  datatype Tile = Tile(turf: nat, content: seq<nat>, sums: Levels, flags: bv8)
  datatype State = State(objects: map<nat, Material>, tiles: map<nat, Tile>)

  /** The ids whose levels count on a tile. */
  function Holds(s: State, t: Tile): seq<nat> {
    (if t.turf in s.objects then [t.turf] else []) + t.content
  }

  predicate HasSpace(s: State, t: Tile) {
    t.turf in s.objects && s.objects[t.turf].space
  }

  /** `m` is the least of FULL and the levels of `ids` on one side. */
  ghost predicate IsLeast(objects: map<nat, Material>, ids: seq<nat>, side: Side, m: int)
    requires forall id :: id in ids ==> id in objects
  {
    && m <= FULL
    && (forall id :: id in ids ==> m <= GetPassable(objects[id].levels, side))
    && (m == FULL || exists id :: id in ids && m == GetPassable(objects[id].levels, side))
  }

  /** The tile remembers the least levels, and every flag says what it should. */
  ghost predicate Cached(s: State, t: Tile)
    requires forall id :: id in t.content ==> id in s.objects
  {
    && (forall side :: IsLeast(s.objects, Holds(s, t), side, GetPassable(t.sums, side)))
    && t.flags == FlagsOf(t.sums, HasSpace(s, t), t.content == [])
  }

  /** What a tile holds exists, is not listed twice, and knows the tile as its owner. */
  predicate Owned(s: State, id: nat, t: Tile) {
    && (forall i :: i in t.content ==> i in s.objects && i != t.turf)
    && (forall i, j :: 0 <= i < j < |t.content| ==> t.content[i] != t.content[j])
    && (forall i :: i in Holds(s, t) ==> s.objects[i].owner == id)
  }

  /** Every tile remembers what it should. */
  ghost predicate AllCached(s: State) {
    Live(s) && forall t :: t in s.tiles ==> Cached(s, s.tiles[t])
  }

  /** And no object is on two tiles. */
  ghost predicate Inv(s: State) {
    0 !in s.objects && AllCached(s) && forall t :: t in s.tiles ==> Owned(s, t, s.tiles[t])
  }

  predicate HeldBy(s: State, id: nat, t: nat) {
    t in s.tiles && id in Holds(s, s.tiles[t])
  }

  // ----- the operations

  /** The minimum over some ids, one after the other. */
  function Lowest(objects: map<nat, Material>, start: Levels, ids: seq<nat>): Levels
    requires forall id :: id in ids ==> id in objects
  {
    if ids == [] then start
    else Lower(Lowest(objects, start, ids[..|ids| - 1]), objects[ids[|ids| - 1]].levels)
  }

  function UpdateAtmosPassable(s: State, t: Tile): Tile {
    t.(flags := FlagsOf(t.sums, HasSpace(s, t), t.content == []))
  }

  function UpdatePassable(s: State, t: Tile): Tile
    requires forall id :: id in t.content ==> id in s.objects
  {
    UpdateAtmosPassable(s, t.(sums := Lowest(s.objects, NOTHING, Holds(s, t))))
  }

  /** The first place of an id, or the end. */
  function Find(ids: seq<nat>, id: nat): (i: nat)
    ensures i <= |ids|
  {
    if ids == [] then 0 else if ids[0] == id then 0 else 1 + Find(ids[1..], id)
  }

  predicate Live(s: State) {
    forall t :: t in s.tiles ==> forall id :: id in s.tiles[t].content ==> id in s.objects
  }

  /** Only the new object's levels are looked at. */
  function AddObject(s: State, t: nat, item: nat): State
    requires t in s.tiles
  {
    if item !in s.objects then s
    else
      var u := s.(objects := s.objects[item := s.objects[item].(owner := t)]);
      var tile := s.tiles[t];
      u.(tiles := s.tiles[t := UpdateAtmosPassable(u, tile.(content := tile.content + [item], sums := Lower(tile.sums, s.objects[item].levels)))])
  }

  function SetTurf(s: State, t: nat, turf: nat): State
    requires t in s.tiles && Live(s)
  {
    var u := if turf in s.objects then s.(objects := s.objects[turf := s.objects[turf].(owner := t)]) else s;
    u.(tiles := s.tiles[t := UpdatePassable(u, s.tiles[t].(turf := turf))])
  }

  function RemoveObject(s: State, t: nat, item: nat): State
    requires t in s.tiles && Live(s)
  {
    var tile := s.tiles[t];
    var i := Find(tile.content, item);
    if item !in s.objects then s
    else if item == tile.turf then SetTurf(s, t, 0)
    else if i == |tile.content| then s
    else s.(tiles := s.tiles[t := UpdatePassable(s, tile.(content := tile.content[..i] + tile.content[i + 1..]))])
  }

  /** An object changes one of its levels; its owner looks again. */
  function SetPassable(s: State, id: nat, side: Side, level: int): State
    requires id in s.objects && Live(s)
  {
    var o := s.objects[id];
    var u := s.(objects := s.objects[id := o.(levels := WithPassable(o.levels, side, level))]);
    if o.owner in s.tiles then u.(tiles := u.tiles[o.owner := UpdatePassable(u, u.tiles[o.owner])]) else u
  }

  // ----- recomputing and adding both find the least

  lemma {:induction false} LowestIsLeast(objects: map<nat, Material>, ids: seq<nat>, side: Side)
    requires forall id :: id in ids ==> id in objects
    ensures IsLeast(objects, ids, side, GetPassable(Lowest(objects, NOTHING, ids), side))
  {
    if ids != [] {
      var n := |ids| - 1;
      LowestIsLeast(objects, ids[..n], side);
      assert ids == ids[..n] + [ids[n]];
      LowerBySide(Lowest(objects, NOTHING, ids[..n]), objects[ids[n]].levels, side);
      hide GetPassable, Lower;
      LeastNext(objects, ids[..n], ids[n], side, GetPassable(Lowest(objects, NOTHING, ids[..n]), side));
    }
  }

  lemma LowerBySide(a: Levels, b: Levels, side: Side)
    ensures GetPassable(Lower(a, b), side) == Min(GetPassable(a, side), GetPassable(b, side))
  {}

  lemma LeastNext(objects: map<nat, Material>, ids: seq<nat>, id: nat, side: Side, m: int)
    requires (forall i :: i in ids ==> i in objects) && id in objects && IsLeast(objects, ids, side, m)
    ensures forall i :: i in ids + [id] ==> i in objects
    ensures IsLeast(objects, ids + [id], side, Min(m, GetPassable(objects[id].levels, side)))
  {
    hide GetPassable;
    assert id in ids + [id];
    assert forall i :: i in ids ==> i in ids + [id];
  }

  /** There is only one least level, so the cache is determined by what the tile holds. */
  lemma LeastIsOne(objects: map<nat, Material>, ids: seq<nat>, side: Side, m: int, n: int)
    requires (forall id :: id in ids ==> id in objects) && IsLeast(objects, ids, side, m) && IsLeast(objects, ids, side, n)
    ensures m == n
  {
    hide GetPassable;
  }

  /** What the flags tell: each bit exactly its fact. */
  lemma FlagsTell(l: Levels, space: bool, empty: bool)
    ensures var f := FlagsOf(l, space, empty);
      && (f & UP_BLOCK != 0 <==> l.up < AIR) && (f & DOWN_BLOCK != 0 <==> l.down < AIR)
      && (f & LEFT_BLOCK != 0 <==> l.left < AIR) && (f & RIGHT_BLOCK != 0 <==> l.right < AIR)
      && (f & CENTER_BLOCK != 0 <==> l.all < AIR)
      && (f & SPACE_TILE != 0 <==> space) && (f & NO_OBJECTS != 0 <==> empty) && f & 128 == 0
  {}

  // ----- an update, and what others notice of it

  lemma {:induction false} FindIs(ids: seq<nat>, id: nat)
    ensures var i := Find(ids, id);
      (forall k :: 0 <= k < i ==> ids[k] != id) && (if i < |ids| then ids[i] == id else id !in ids)
  {
    if ids != [] && ids[0] != id {
      FindIs(ids[1..], id);
      assert forall k :: 0 < k < |ids| ==> ids[k] == ids[1..][k - 1];
    }
  }

  /** An update leaves a good cache, whatever was there. */
  lemma UpdatedIsCached(s: State, t: Tile)
    requires forall id :: id in t.content ==> id in s.objects
    ensures var u := UpdatePassable(s, t); Cached(s, u) && u == t.(sums := u.sums, flags := u.flags)
  {
    forall side ensures IsLeast(s.objects, Holds(s, t), side, GetPassable(UpdatePassable(s, t).sums, side)) {
      LowestIsLeast(s.objects, Holds(s, t), side);
    }
    assert Holds(s, UpdatePassable(s, t)) == Holds(s, t);
    hide IsLeast, Lowest, FlagsOf, GetPassable;
  }

  lemma LeastByLevels(objects: map<nat, Material>, others: map<nat, Material>, ids: seq<nat>, side: Side, m: int)
    requires forall id :: id in ids ==> id in objects && id in others && others[id].levels == objects[id].levels
    ensures IsLeast(objects, ids, side, m) <==> IsLeast(others, ids, side, m)
  {
    hide GetPassable;
  }

  /** What a tile reads of an object: all but its owner. */
  predicate Alike(s: State, u: State, id: nat) {
    && (id in s.objects <==> id in u.objects)
    && (id in s.objects ==> u.objects[id].levels == s.objects[id].levels && u.objects[id].space == s.objects[id].space)
  }

  lemma AlikeHolds(s: State, u: State, t: Tile)
    requires Alike(s, u, t.turf)
    ensures Holds(u, t) == Holds(s, t) && HasSpace(u, t) == HasSpace(s, t)
  {}

  /** A tile whose objects look the same keeps its cache. */
  lemma SameCached(s: State, u: State, t: Tile)
    requires (forall id :: id in t.content ==> id in s.objects) && Cached(s, t)
    requires Alike(s, u, t.turf) && forall id :: id in t.content ==> Alike(s, u, id)
    ensures (forall id :: id in t.content ==> id in u.objects) && Cached(u, t)
  {
    AlikeHolds(s, u, t);
    hide GetPassable, FlagsOf, HasSpace;
    forall side ensures IsLeast(u.objects, Holds(u, t), side, GetPassable(t.sums, side)) {
      LeastByLevels(s.objects, u.objects, Holds(s, t), side, GetPassable(t.sums, side));
    }
  }

  /** When one tile is changed and the objects look the same to all others. */
  lemma OneTileKeeps(s: State, u: State, t: nat)
    requires AllCached(s) && t in s.tiles && t in u.tiles && u.tiles == s.tiles[t := u.tiles[t]]
    requires forall id :: Alike(s, u, id)
    requires (forall id :: id in u.tiles[t].content ==> id in u.objects) && Cached(u, u.tiles[t])
    ensures AllCached(u)
  {
    hide Cached, Alike;
    forall o | o in s.tiles && o != t
      ensures (forall id :: id in u.tiles[o].content ==> id in u.objects) && Cached(u, u.tiles[o])
    {
      SameCached(s, u, s.tiles[o]);
    }
  }

  // ----- adding, removing and another turf keep every tile's cache, wherever else the object is

  /** An object with another owner. */
  function Moved(s: State, id: nat, t: nat): State
    requires id in s.objects
  {
    s.(objects := s.objects[id := s.objects[id].(owner := t)])
  }

  lemma AddKeepsCache(s: State, t: nat, item: nat)
    requires AllCached(s) && t in s.tiles
    ensures AllCached(AddObject(s, t, item))
  {
    if item in s.objects {
      var u := AddObject(s, t, item);
      assert u.objects == Moved(s, item, t).objects;
      AddedCached(s, t, item);
      hide Cached, AllCached;
      OneTileKeeps(s, u, t);
    }
  }

  lemma AddedCached(s: State, t: nat, item: nat)
    requires AllCached(s) && t in s.tiles && item in s.objects
    ensures var u := AddObject(s, t, item);
      (forall id :: id in u.tiles[t].content ==> id in u.objects) && Cached(u, u.tiles[t])
  {
    var u := AddObject(s, t, item);
    var tile, new_ := s.tiles[t], u.tiles[t];
    assert Holds(u, new_) == Holds(s, tile) + [item];
    forall side ensures IsLeast(u.objects, Holds(u, new_), side, GetPassable(new_.sums, side)) {
      LeastNext(s.objects, Holds(s, tile), item, side, GetPassable(tile.sums, side));
      LowerBySide(tile.sums, s.objects[item].levels, side);
      LeastByLevels(s.objects, u.objects, Holds(s, tile) + [item], side, GetPassable(new_.sums, side));
    }
    hide IsLeast, GetPassable, FlagsOf, Lower;
  }

  /** After an update of a tile with other contents. */
  lemma UpdateKeepsCache(s: State, u: State, t: nat, tile: Tile)
    requires AllCached(s) && t in s.tiles && u.tiles == s.tiles
    requires (forall id :: Alike(s, u, id)) && forall id :: id in tile.content ==> id in u.objects
    ensures AllCached(u.(tiles := s.tiles[t := UpdatePassable(u, tile)]))
  {
    var v := u.(tiles := s.tiles[t := UpdatePassable(u, tile)]);
    UpdatedIsCached(u, tile);
    hide UpdatePassable, AllCached, Cached;
    forall id ensures Alike(u, v, id) && Alike(s, v, id) {
      assert Alike(s, u, id);
    }
    SameCached(u, v, v.tiles[t]);
    OneTileKeeps(s, v, t);
  }

  lemma SetTurfKeepsCache(s: State, t: nat, turf: nat)
    requires AllCached(s) && t in s.tiles
    ensures AllCached(SetTurf(s, t, turf))
  {
    hide UpdatePassable, Cached;
    UpdateKeepsCache(s, if turf in s.objects then Moved(s, turf, t) else s, t, s.tiles[t].(turf := turf));
  }

  lemma RemoveKeepsCache(s: State, t: nat, item: nat)
    requires AllCached(s) && t in s.tiles
    ensures AllCached(RemoveObject(s, t, item))
  {
    hide UpdatePassable, Cached, Find, SetTurf;
    var tile := s.tiles[t];
    var i := Find(tile.content, item);
    SetTurfKeepsCache(s, t, 0);
    if i < |tile.content| {
      UpdateKeepsCache(s, s, t, tile.(content := tile.content[..i] + tile.content[i + 1..]));
    }
  }

  // ----- a member's new level: exactly when no cache goes stale

  /** The level that tile `t` remembers on a side is still the least after object `id` has taken another one: it is the
      new level, or lower and not owed to this object alone. */
  predicate LeastStays(s: State, id: nat, side: Side, level: int, t: nat)
    requires Live(s) && t in s.tiles && id in s.objects
  {
    var m := GetPassable(s.tiles[t].sums, side);
    level == m || (level > m && (GetPassable(s.objects[id].levels, side) != m || m == FULL || Another(s, id, side, m, t)))
  }

  predicate Another(s: State, id: nat, side: Side, m: int, t: nat)
    requires Live(s) && t in s.tiles
  {
    exists j :: j in Holds(s, s.tiles[t]) && j != id && GetPassable(s.objects[j].levels, side) == m
  }

  /** It does on every tile that holds the object without being its owner. */
  predicate Noticed(s: State, id: nat, side: Side, level: int)
    requires Live(s) && id in s.objects
  {
    forall t :: t in s.tiles && t != s.objects[id].owner && id in Holds(s, s.tiles[t]) ==> LeastStays(s, id, side, level, t)
  }

  /** The objects after a change of a level, before any tile looks. */
  function Levelled(s: State, id: nat, side: Side, level: int): State
    requires id in s.objects
  {
    s.(objects := s.objects[id := s.objects[id].(levels := WithPassable(s.objects[id].levels, side, level))])
  }

  lemma OneSide(l: Levels, side: Side, level: int, other: Side)
    ensures GetPassable(WithPassable(l, side, level), other) == if other == side then level else GetPassable(l, other)
  {}

  lemma LeastAfter(s: State, id: nat, side: Side, level: int, t: nat)
    requires AllCached(s) && id in s.objects && t in s.tiles && id in Holds(s, s.tiles[t])
    ensures IsLeast(Levelled(s, id, side, level).objects, Holds(s, s.tiles[t]), side, GetPassable(s.tiles[t].sums, side))
      <==> LeastStays(s, id, side, level, t)
  {
    OneSide(s.objects[id].levels, side, level, side);
    assert IsLeast(s.objects, Holds(s, s.tiles[t]), side, GetPassable(s.tiles[t].sums, side));
    hide GetPassable, WithPassable, FlagsOf, Cached;
  }

  /** A tile that does not look again. */
  lemma NotLooking(s: State, id: nat, side: Side, level: int, t: nat)
    requires AllCached(s) && id in s.objects && t in s.tiles
    ensures Cached(Levelled(s, id, side, level), s.tiles[t]) <==> (id in Holds(s, s.tiles[t]) ==> LeastStays(s, id, side, level, t))
  {
    var u, tile := Levelled(s, id, side, level), s.tiles[t];
    hide GetPassable, WithPassable, FlagsOf, LeastStays;
    if id in Holds(s, tile) {
      LeastAfter(s, id, side, level, t);
      assert Holds(u, tile) == Holds(s, tile);
      forall other | other != side ensures IsLeast(u.objects, Holds(u, tile), other, GetPassable(tile.sums, other)) {
        OneSide(s.objects[id].levels, side, level, other);
      }
    } else {
      assert tile.turf in s.objects ==> tile.turf in Holds(s, tile);
      SameCached(s, u, tile);
    }
  }

  /** A member changes a level behind the tiles: every cache is right afterwards exactly when each tile that holds the
      object, and is not asked, has the same least level as before. */
  lemma SetPassableCachedIff(s: State, id: nat, side: Side, level: int)
    requires AllCached(s) && id in s.objects
    ensures AllCached(SetPassable(s, id, side, level)) <==> Noticed(s, id, side, level)
  {
    var owner := s.objects[id].owner;
    var u, v := Levelled(s, id, side, level), SetPassable(s, id, side, level);
    hide UpdatePassable, WithPassable, Cached, LeastStays;
    forall t | t in s.tiles && t != owner
      ensures Cached(v, v.tiles[t]) <==> (id in Holds(s, s.tiles[t]) ==> LeastStays(s, id, side, level, t))
    {
      NotLooking(s, id, side, level, t);
      SameObjects(u, v, s.tiles[t]);
    }
    if owner in s.tiles {
      UpdatedIsCached(u, s.tiles[owner]);
      SameObjects(u, v, v.tiles[owner]);
    }
  }

  lemma SameObjects(u: State, v: State, t: Tile)
    requires u.objects == v.objects && forall id :: id in t.content ==> id in u.objects
    ensures Cached(u, t) <==> Cached(v, t)
  {
    hide GetPassable, FlagsOf, IsLeast;
    assert Holds(u, t) == Holds(v, t);
  }

  // ----- no object on two tiles

  lemma InvOwned(s: State, t: nat)
    requires Inv(s) && t in s.tiles
    ensures 0 !in s.objects && Owned(s, t, s.tiles[t]) && forall id :: id in Holds(s, s.tiles[t]) ==> id in s.objects
  {
    hide Cached;
  }

  /** A tile whose objects keep their owner. */
  lemma SameOwned(s: State, u: State, id: nat, t: Tile)
    requires Owned(s, id, t) && u.objects.Keys == s.objects.Keys
    requires forall i :: i in Holds(s, t) ==> u.objects[i].owner == s.objects[i].owner
    ensures Owned(u, id, t)
  {
    assert Holds(u, t) == Holds(s, t);
  }

  lemma AddedOwned(s: State, t: nat, item: nat)
    requires t in s.tiles && Owned(s, t, s.tiles[t]) && item in s.objects && !HeldBy(s, item, t)
    ensures var u := AddObject(s, t, item); Owned(u, t, u.tiles[t])
  {
    hide FlagsOf, Lower;
    var tile := s.tiles[t];
    assert item !in tile.content by { assert item in tile.content ==> item in Holds(s, tile); }
    assert item != tile.turf by { assert tile.turf in s.objects ==> tile.turf in Holds(s, tile); }
  }

  lemma AddKeeps(s: State, t: nat, item: nat)
    requires Inv(s) && t in s.tiles && (item in s.objects ==> forall o :: !HeldBy(s, item, o))
    ensures Inv(AddObject(s, t, item))
  {
    AddKeepsCache(s, t, item);
    hide Cached, AllCached;
    if item in s.objects {
      var u := AddObject(s, t, item);
      AddedOwned(s, t, item);
      forall o | o in s.tiles && o != t ensures Owned(u, o, u.tiles[o]) {
        assert !HeldBy(s, item, o);
        SameOwned(s, u, o, s.tiles[o]);
      }
    }
  }

  lemma SetTurfKeeps(s: State, t: nat, turf: nat)
    requires Inv(s) && t in s.tiles && turf !in s.tiles[t].content
    requires turf in s.objects ==> forall o :: o != t ==> !HeldBy(s, turf, o)
    ensures Inv(SetTurf(s, t, turf))
  {
    SetTurfKeepsCache(s, t, turf);
    InvOwned(s, t);
    var u := SetTurf(s, t, turf);
    UpdatedIsCached(if turf in s.objects then Moved(s, turf, t) else s, s.tiles[t].(turf := turf));
    hide UpdatePassable, Cached, AllCached, Owned;
    TurfOwned(s, u, t, turf);
    forall o | o in s.tiles && o != t ensures Owned(u, o, u.tiles[o]) {
      assert !HeldBy(s, turf, o) || turf !in s.objects;
      SameOwned(s, u, o, s.tiles[o]);
    }
  }

  lemma TurfOwned(s: State, u: State, t: nat, turf: nat)
    requires t in s.tiles && Owned(s, t, s.tiles[t]) && turf !in s.tiles[t].content && t in u.tiles
    requires u.tiles[t].turf == turf && u.tiles[t].content == s.tiles[t].content
    requires u.objects == if turf in s.objects then Moved(s, turf, t).objects else s.objects
    ensures Owned(u, t, u.tiles[t])
  {
    assert forall i :: i in s.tiles[t].content ==> i in Holds(s, s.tiles[t]);
  }

  lemma RemoveKeeps(s: State, t: nat, item: nat)
    requires Inv(s) && t in s.tiles
    ensures Inv(RemoveObject(s, t, item))
  {
    RemoveKeepsCache(s, t, item);
    InvOwned(s, t);
    var tile := s.tiles[t];
    var i := Find(tile.content, item);
    hide UpdatePassable, Cached, AllCached, Find, Owned;
    if item in s.objects && item == tile.turf {
      TurfNotListed(s, t);
      SetTurfKeeps(s, t, 0);
    } else if item in s.objects && i < |tile.content| {
      var fewer := tile.(content := tile.content[..i] + tile.content[i + 1..]);
      ShorterOwned(s, t, i);
      UpdatedIsCached(s, fewer);
      UpdatedOwned(s, RemoveObject(s, t, item), t, fewer);
      forall o | o in s.tiles && o != t ensures Owned(RemoveObject(s, t, item), o, s.tiles[o]) {
        SameOwned(s, RemoveObject(s, t, item), o, s.tiles[o]);
      }
    }
  }

  lemma TurfNotListed(s: State, t: nat)
    requires Inv(s) && t in s.tiles
    ensures 0 !in s.tiles[t].content
  {
    InvOwned(s, t);
  }

  lemma UpdatedOwned(s: State, u: State, t: nat, tile: Tile)
    requires Owned(s, t, tile) && u.objects == s.objects && t in u.tiles
    requires u.tiles[t].turf == tile.turf && u.tiles[t].content == tile.content
    ensures Owned(u, t, u.tiles[t])
  {
    assert Holds(u, u.tiles[t]) == Holds(s, tile);
  }

  /** Taking one out of the list keeps the rest. */
  lemma ShorterOwned(s: State, t: nat, i: nat)
    requires t in s.tiles && Owned(s, t, s.tiles[t]) && i < |s.tiles[t].content|
    ensures var c := s.tiles[t].content; Owned(s, t, s.tiles[t].(content := c[..i] + c[i + 1..]))
  {
    var tile := s.tiles[t];
    var c := tile.content;
    var d := c[..i] + c[i + 1..];
    assert forall k :: 0 <= k < |d| ==> d[k] == c[if k < i then k else k + 1];
    forall id | id in Holds(s, tile.(content := d)) ensures id in Holds(s, tile) {
      if id in d {
        assert id in c;
      }
    }
  }

  /** With one tile for each object the owner is the only one to ask. */
  lemma SetPassableKeeps(s: State, id: nat, side: Side, level: int)
    requires Inv(s) && id in s.objects
    ensures Inv(SetPassable(s, id, side, level))
  {
    SetPassableCachedIff(s, id, side, level);
    var owner := s.objects[id].owner;
    var u, v := Levelled(s, id, side, level), SetPassable(s, id, side, level);
    if owner in s.tiles {
      UpdatedIsCached(u, s.tiles[owner]);
    }
    hide UpdatePassable, Cached, AllCached, WithPassable, LeastStays, Owned;
    forall t | t in s.tiles ensures Owned(v, t, v.tiles[t]) && (id in Holds(s, s.tiles[t]) ==> t == owner) {
      SameOwned(s, u, t, s.tiles[t]);
      OwnerIs(s, t);
      UpdatedOwned(u, v, t, s.tiles[t]);
    }
  }

  lemma OwnerIs(s: State, t: nat)
    requires t in s.tiles && Owned(s, t, s.tiles[t])
    ensures forall id :: id in Holds(s, s.tiles[t]) ==> id in s.objects && s.objects[id].owner == t
  {}

  // ----- runs

  datatype Op = Add(tile: nat, item: nat) | Remove(tile: nat, item: nat) | PutTurf(tile: nat, turf: nat) | Passable(item: nat, side: Side, level: int)

  /** The tile exists, the object that changes itself exists. */
  predicate Applies(s: State, op: Op) {
    match op
    case Add(t, _) => t in s.tiles
    case Remove(t, _) => t in s.tiles
    case PutTurf(t, _) => t in s.tiles
    case Passable(item, _, _) => item in s.objects
  }

  /** Objects come to a tile only from no tile: callers take them off the old one first. */
  predicate Allowed(s: State, op: Op) {
    match op
    case Add(t, item) => t in s.tiles && (item in s.objects ==> forall o :: o in s.tiles ==> !HeldBy(s, item, o))
    case Remove(t, item) => t in s.tiles
    case PutTurf(t, turf) =>
      t in s.tiles && turf !in s.tiles[t].content && (turf in s.objects ==> forall o :: o in s.tiles && o != t ==> !HeldBy(s, turf, o))
    case Passable(item, _, _) => item in s.objects
  }

  function Apply(s: State, op: Op): State
    requires Live(s) && Applies(s, op)
  {
    match op
    case Add(t, item) => AddObject(s, t, item)
    case Remove(t, item) => RemoveObject(s, t, item)
    case PutTurf(t, turf) => SetTurf(s, t, turf)
    case Passable(item, side, level) => SetPassable(s, item, side, level)
  }

  /** A run never gets stuck: what tiles list goes on existing. */
  lemma ApplyLive(s: State, op: Op)
    requires Live(s) && Applies(s, op)
    ensures Live(Apply(s, op))
  {
    hide FlagsOf, Lower, Lowest, Find, WithPassable;
  }

  /** Whatever is put where: of all operations only a member's new level can leave a cache wrong, and it does exactly
      when another tile than its owner holds it and loses its least level, or gets a lower one. */
  lemma OpCachedIff(s: State, op: Op)
    requires AllCached(s) && Applies(s, op)
    ensures AllCached(Apply(s, op)) <==> (op.Passable? ==> Noticed(s, op.item, op.side, op.level))
  {
    hide AddObject, RemoveObject, SetTurf, SetPassable, AllCached, Noticed;
    match op
    case Add(t, item) => AddKeepsCache(s, t, item);
    case Remove(t, item) => RemoveKeepsCache(s, t, item);
    case PutTurf(t, turf) => SetTurfKeepsCache(s, t, turf);
    case Passable(item, side, level) => SetPassableCachedIff(s, item, side, level);
  }

  /** Where objects come to a tile from no tile, none does. */
  lemma OpKeeps(s: State, op: Op)
    requires Inv(s) && Allowed(s, op)
    ensures Inv(Apply(s, op))
  {
    hide AddObject, RemoveObject, SetTurf, SetPassable;
    match op
    case Add(t, item) => AddKeeps(s, t, item);
    case Remove(t, item) => RemoveKeeps(s, t, item);
    case PutTurf(t, turf) => SetTurfKeeps(s, t, turf);
    case Passable(item, side, level) => SetPassableKeeps(s, item, side, level);
  }

  /** All states of a run from the first. */
  ghost predicate Runs(ss: seq<State>, ops: seq<Op>) {
    && |ss| == |ops| + 1
    && forall i :: 0 <= i < |ops| ==> Live(ss[i]) && Applies(ss[i], ops[i]) && ss[i + 1] == Apply(ss[i], ops[i])
  }

  /** In every run all caches are right all along exactly when they are at first and every change of a level is noticed. */
  lemma RunCachedIff(ss: seq<State>, ops: seq<Op>)
    requires Runs(ss, ops)
    ensures (forall i :: 0 <= i < |ss| ==> AllCached(ss[i])) <==> AllCached(ss[0]) && AllNoticed(ss, ops)
  {
    hide AllCached, Noticed, Apply;
    if AllCached(ss[0]) && AllNoticed(ss, ops) {
      for i := 0 to |ops|
        invariant forall k :: 0 <= k <= i ==> AllCached(ss[k])
      {
        OpCachedIff(ss[i], ops[i]);
      }
    } else if forall i :: 0 <= i < |ss| ==> AllCached(ss[i]) {
      forall i | 0 <= i < |ops| && ops[i].Passable? ensures Noticed(ss[i], ops[i].item, ops[i].side, ops[i].level) {
        OpCachedIff(ss[i], ops[i]);
        assert AllCached(ss[i + 1]);
      }
    }
  }

  ghost predicate AllNoticed(ss: seq<State>, ops: seq<Op>)
    requires Runs(ss, ops)
  {
    forall i :: 0 <= i < |ops| && ops[i].Passable? ==> Noticed(ss[i], ops[i].item, ops[i].side, ops[i].level)
  }

  /** In every run of callers who take objects off first the five levels are the least of what a tile holds, and its
      flags follow from them. */
  lemma RunKeeps(ss: seq<State>, ops: seq<Op>)
    requires Runs(ss, ops) && Inv(ss[0]) && forall i :: 0 <= i < |ops| ==> Allowed(ss[i], ops[i])
    ensures forall i :: 0 <= i < |ss| ==> Inv(ss[i])
  {
    hide Inv, Allowed, Apply;
    for i := 0 to |ops|
      invariant forall k :: 0 <= k <= i ==> Inv(ss[k])
    {
      OpKeeps(ss[i], ops[i]);
    }
  }

  // ----- without taking it off first

  /** Object 5 has been put on tile 2, and then on tile 3. */
  function OnTwo(sums: Levels, level: int): State {
    State(map[5 := Material(NOTHING.(all := level), 3, false)], map[2 := Tile(0, [5], NOTHING, 0), 3 := Tile(0, [5], sums, 0)])
  }

  lemma PutOnTwo()
    ensures var bare := Tile(0, [], NOTHING, NO_OBJECTS);
      var s := State(map[5 := Material(NOTHING, 0, false)], map[2 := bare, 3 := bare]);
      Inv(s) && AddObject(AddObject(s, 2, 5), 3, 5) == OnTwo(NOTHING, FULL)
  {
    var bare := Tile(0, [], NOTHING, NO_OBJECTS);
    var s := State(map[5 := Material(NOTHING, 0, false)], map[2 := bare, 3 := bare]);
    assert AddObject(s, 2, 5).tiles[2] == Tile(0, [5], NOTHING, 0);
  }

  /** Then tile 2 is not told when the object changes, and still takes it for passable. */
  lemma TwoTilesGoStale()
    ensures var u := SetPassable(OnTwo(NOTHING, FULL), 5, ALL, 0);
      && 2 in u.tiles && (forall id :: id in u.tiles[2].content ==> id in u.objects)
      && Cached(OnTwo(NOTHING, FULL), OnTwo(NOTHING, FULL).tiles[2]) && !Cached(u, u.tiles[2])
  {
    var s := OnTwo(NOTHING, FULL);
    var u := SetPassable(s, 5, ALL, 0);
    hide UpdatePassable;
    assert Cached(s, s.tiles[2]) by {
      assert Holds(s, s.tiles[2]) == [5] && s.objects[5].levels == NOTHING;
      forall side ensures GetPassable(NOTHING, side) == FULL {}
    }
    assert u.objects.Keys == {5};
    assert u.tiles[2] == s.tiles[2] && u.objects[5].levels.all == 0;
    assert 5 in Holds(u, u.tiles[2]) && 5 in Holds(s, s.tiles[2]);
    assert !IsLeast(u.objects, Holds(u, u.tiles[2]), ALL, FULL);
    assert GetPassable(u.tiles[2].sums, ALL) == FULL;
  }

  // ----- an object and its own tile

  /** While its own level is FULL an object does not count: the tile has the least level of the others. Movement asks
      what is in the way in this manner (objects/movable/Movable.cpp:108-129). */
  lemma OwnLevelAside(objects: map<nat, Material>, before: seq<nat>, id: nat, after: seq<nat>, side: Side, m: int)
    requires (forall i :: i in before + [id] + after ==> i in objects) && GetPassable(objects[id].levels, side) == FULL
    requires forall i :: i in before + after ==> i in objects
    ensures IsLeast(objects, before + [id] + after, side, m) <==> IsLeast(objects, before + after, side, m)
  {
    hide GetPassable;
    assert forall i :: i in before + [id] + after <==> i in before + after || i == id;
  }
}
