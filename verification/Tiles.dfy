/** Tiles as they are changed in place (sources/core/objects/Tile.cpp:283-329, 361-387, 443-477), against the model. */
module TilesInPlace {
  import opened TileCache

  const DIRS := [ALL, NORTH, SOUTH, WEST, EAST]
  const BIT_DIRS: seq<bv8> := [CENTER_BLOCK, UP_BLOCK, DOWN_BLOCK, LEFT_BLOCK, RIGHT_BLOCK]

  /** The tiles of a map, and the objects. */
  class Board {
    var objects: map<nat, Material>
    var tiles: map<nat, Tile>

    ghost function View(): State
      reads this
    {
      State(objects, tiles)
    }

    constructor (o: map<nat, Material>, t: map<nat, Tile>)
      ensures View() == State(o, t)
    {
      objects, tiles := o, t;
    }

    method UpdateAtmosPassable(t: nat)
      requires t in tiles
      modifies this`tiles
      ensures tiles == old(tiles)[t := TileCache.UpdateAtmosPassable(old(View()), old(tiles)[t])]
    {
      var tile := tiles[t];
      var flags: bv8 := 0;
      hide BlockFlags, Flag, GetPassable;
      NoFlags(tile.sums);
      for i := 0 to 5
        invariant tiles == old(tiles) && flags == BlockFlags(tile.sums, i)
      {
        OneFlag(tile.sums, i);
        if !CanPass(GetPassable(tile.sums, DIRS[i]), AIR) {
          flags := flags | BIT_DIRS[i];
        }
      }
      FlagIs(HasSpace(State(objects, tiles), tile), SPACE_TILE, flags);
      if tile.turf in objects && objects[tile.turf].space {
        flags := flags | SPACE_TILE;
      }
      FlagIs(tile.content == [], NO_OBJECTS, flags);
      if tile.content == [] {
        flags := flags | NO_OBJECTS;
      }
      tiles := tiles[t := tile.(flags := flags)];
    }

    method UpdatePassable(t: nat)
      requires t in tiles && forall id :: id in tiles[t].content ==> id in objects
      modifies this`tiles
      ensures tiles == old(tiles)[t := TileCache.UpdatePassable(old(View()), old(tiles)[t])]
    {
      var tile := tiles[t];
      var sums := NOTHING;
      ghost var holds := Holds(View(), tile);
      hide Lower, FlagsOf;
      if tile.turf in objects {
        sums := Lower(sums, objects[tile.turf].levels);
        OneTurf(objects, tile.turf);
      }
      for i := 0 to |tile.content|
        invariant tiles == old(tiles) && sums == Lowest(objects, NOTHING, holds[..|holds| - |tile.content| + i])
      {
        var id := tile.content[i];
        LowestNext(objects, holds, |holds| - |tile.content| + i);
        sums := Lower(sums, objects[id].levels);
      }
      assert holds[..|holds|] == holds;
      tiles := tiles[t := tile.(sums := sums)];
      UpdateAtmosPassable(t);
    }

    method AddObject(t: nat, item: nat) returns (ok: bool)
      requires t in tiles
      modifies this
      ensures View() == TileCache.AddObject(old(View()), t, item) && ok == (item in old(objects))
      ensures ok ==> tiles[t].content == old(tiles)[t].content + [item] && tiles[t].turf == old(tiles)[t].turf && objects[item].owner == t
      ensures !ok ==> View() == old(View())
    {
      if item !in objects { return false; }
      hide FlagsOf, Lower;
      var tile := tiles[t];
      objects := objects[item := objects[item].(owner := t)];
      tiles := tiles[t := tile.(content := tile.content + [item], sums := Lower(tile.sums, objects[item].levels))];
      UpdateAtmosPassable(t);
      return true;
    }

    method SetTurf(t: nat, turf: nat)
      requires t in tiles && Live(View())
      modifies this
      ensures View() == TileCache.SetTurf(old(View()), t, turf)
      ensures t in tiles && tiles[t].turf == turf && tiles[t].content == old(tiles)[t].content
      ensures objects.Keys == old(objects).Keys && (turf in objects ==> objects[turf].owner == t)
    {
      tiles := tiles[t := tiles[t].(turf := turf)];
      if turf in objects {
        objects := objects[turf := objects[turf].(owner := t)];
      }
      hide Lowest, FlagsOf;
      SameUpdate(View(), State(objects, old(tiles)), tiles[t]);
      UpdatePassable(t);
    }

    method RemoveObject(t: nat, item: nat) returns (ok: bool)
      requires t in tiles && Live(View())
      modifies this
      ensures View() == TileCache.RemoveObject(old(View()), t, item)
      ensures ok == (item in old(objects) && (item == old(tiles)[t].turf || item in old(tiles)[t].content))
      ensures t in tiles && (ok && item == old(tiles)[t].turf ==> tiles[t].turf == 0 && tiles[t].content == old(tiles)[t].content)
      ensures ok && item != old(tiles)[t].turf ==>
        tiles[t].turf == old(tiles)[t].turf && multiset(tiles[t].content) == multiset(old(tiles)[t].content) - multiset{item}
      ensures !ok ==> View() == old(View())
    {
      hide TileCache.UpdatePassable, TileCache.SetTurf, Find;
      FindIs(tiles[t].content, item);
      if item !in objects { return false; }
      if item == tiles[t].turf {
        SetTurf(t, 0);
        return true;
      }
      var tile := tiles[t];
      var i := 0;
      while i < |tile.content|
        invariant 0 <= i <= Find(tile.content, item)
      {
        if tile.content[i] == item {
          var fewer := tile.(content := tile.content[..i] + tile.content[i + 1..]);
          tiles := tiles[t := fewer];
          SameUpdate(View(), old(View()), fewer);
          UpdatedIsCached(old(View()), fewer);
          TakenOut(tile.content, i);
          UpdatePassable(t);
          return true;
        }
        i := i + 1;
      }
      return false;
    }

    /** MaterialObject::SetPassable. */
    method SetPassable(item: nat, side: Side, level: int)
      requires item in objects && Live(View())
      modifies this
      ensures View() == TileCache.SetPassable(old(View()), item, side, level)
      ensures item in objects && forall other: Side ::
        GetPassable(objects[item].levels, other) == if other == side then level else GetPassable(old(objects)[item].levels, other)
    {
      hide TileCache.UpdatePassable, WithPassable;
      forall other: Side ensures GetPassable(WithPassable(objects[item].levels, side, level), other)
        == if other == side then level else GetPassable(objects[item].levels, other)
      {
        OneSide(objects[item].levels, side, level, other);
      }
      objects := objects[item := objects[item].(levels := WithPassable(objects[item].levels, side, level))];
      if objects[item].owner in tiles {
        UpdatePassable(objects[item].owner);
      }
    }

    /** Movable::MainMove: off the old tile and onto the new one. All caches stay right. */
    method MainMove(item: nat, from: nat, to: nat)
      requires Inv(View()) && from in tiles && to in tiles && from != to
      requires item in tiles[from].content
      modifies this
      ensures Inv(View()) && !HeldBy(View(), item, from) && HeldBy(View(), item, to)
      ensures tiles.Keys == old(tiles.Keys) && tiles[to].content == old(tiles)[to].content + [item]
    {
      ghost var s := View();
      InvOwned(s, from);
      InvOwned(s, to);
      RemoveKeeps(s, from, item);
      MovedOff(s, from, item);
      var ok := RemoveObject(from, item);
      hide Inv, TileCache.RemoveObject;
      AddKeeps(View(), to, item);
      ghost var u := View();
      ok := AddObject(to, item);
      MovedOn(u, from, to, item);
    }
  }

  lemma TakenOut(c: seq<nat>, i: nat)
    requires i < |c|
    ensures multiset(c[..i] + c[i + 1..]) == multiset(c) - multiset{c[i]}
  {
    assert c == c[..i] + [c[i]] + c[i + 1..];
  }

  lemma NoFlags(l: Levels)
    ensures BlockFlags(l, 0) == 0
  {}

  lemma OneFlag(l: Levels, i: nat)
    requires i < 5
    ensures BlockFlags(l, i + 1) ==
      if !CanPass(GetPassable(l, DIRS[i]), AIR) then BlockFlags(l, i) | BIT_DIRS[i] else BlockFlags(l, i)
  {}

  lemma FlagIs(on: bool, bit: bv8, flags: bv8)
    ensures flags | Flag(on, bit) == if on then flags | bit else flags
  {}

  lemma OneTurf(objects: map<nat, Material>, id: nat)
    requires id in objects
    ensures Lowest(objects, NOTHING, [id]) == Lower(NOTHING, objects[id].levels)
  {
    assert Lowest(objects, NOTHING, [id][..0]) == NOTHING;
    hide Lower;
  }

  lemma LowestNext(objects: map<nat, Material>, ids: seq<nat>, i: nat)
    requires (forall id :: id in ids ==> id in objects) && i < |ids|
    ensures Lowest(objects, NOTHING, ids[..i + 1]) == Lower(Lowest(objects, NOTHING, ids[..i]), objects[ids[i]].levels)
  {
    assert ids[..i + 1][..i] == ids[..i];
    hide Lower;
  }

  /** An update looks at the objects and the tile alone. */
  lemma SameUpdate(s: State, u: State, t: Tile)
    requires s.objects == u.objects && forall id :: id in t.content ==> id in s.objects
    ensures UpdatePassable(s, t) == UpdatePassable(u, t)
  {
    assert Holds(s, t) == Holds(u, t);
    hide Lowest, FlagsOf;
  }

  lemma MovedOff(s: State, from: nat, item: nat)
    requires Inv(s) && Live(s) && from in s.tiles && item in s.tiles[from].content
    ensures var u := RemoveObject(s, from, item);
      && u.objects == s.objects && item in s.objects && u.tiles.Keys == s.tiles.Keys
      && (forall o :: o in s.tiles && o != from ==> u.tiles[o] == s.tiles[o])
      && forall o :: !HeldBy(u, item, o)
  {
    hide Find, Cached, UpdatePassable, Holds, Inv;
    var tile := s.tiles[from];
    FindIs(tile.content, item);
    InvOwned(s, from);
    var i := Find(tile.content, item);
    var fewer := tile.(content := tile.content[..i] + tile.content[i + 1..]);
    UpdatedIsCached(s, fewer);
    var u := RemoveObject(s, from, item);
    assert u.tiles[from].content == fewer.content && u.tiles[from].turf == tile.turf;
    forall o ensures !HeldBy(u, item, o) {
      if o in s.tiles && o != from {
        NotTwice(s, u, from, o, item);
      }
      GoneFrom(u, u.tiles[from], tile.content, i, item);
    }
  }

  lemma NotTwice(s: State, u: State, from: nat, o: nat, item: nat)
    requires Inv(s) && from in s.tiles && o in s.tiles && o != from && item in s.tiles[from].content
    requires u.objects == s.objects && o in u.tiles && u.tiles[o] == s.tiles[o]
    ensures !HeldBy(u, item, o)
  {
    InvOwned(s, from);
    InvOwned(s, o);
    hide Cached;
    assert Holds(u, u.tiles[o]) == Holds(s, s.tiles[o]) && item in Holds(s, s.tiles[from]);
  }

  lemma GoneFrom(u: State, t: Tile, content: seq<nat>, i: nat, item: nat)
    requires i < |content| && content[i] == item && t.content == content[..i] + content[i + 1..] && t.turf != item
    requires forall j, k :: 0 <= j < k < |content| ==> content[j] != content[k]
    ensures item !in Holds(u, t)
  {
    assert forall k :: 0 <= k < |t.content| ==> t.content[k] == content[if k < i then k else k + 1];
  }

  lemma MovedOn(u: State, from: nat, to: nat, item: nat)
    requires from in u.tiles && to in u.tiles && from != to && item in u.objects && !HeldBy(u, item, from)
    ensures var v := AddObject(u, to, item);
      !HeldBy(v, item, from) && HeldBy(v, item, to) && v.tiles[to].content == u.tiles[to].content + [item]
  {
    hide FlagsOf, Lower;
    var v := AddObject(u, to, item);
    assert item in v.tiles[to].content;
    assert Holds(v, v.tiles[from]) == Holds(u, u.tiles[from]);
  }
}
