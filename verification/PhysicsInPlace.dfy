/** The physics engine as it changes its lists in place (sources/core/objects/PhysicsEngine.cpp:17-20, 85-143), against
    the model. Sorting is the library's.
 */
module PhysicsInPlace {
  import opened KvGlobals
  import opened Sequences
  import PL = PhysicsLists

  /** Where an id first stands, or the end. */
  function Find(s: seq<nat>, x: nat): (i: nat)
    ensures i <= |s| && (i < |s| ==> s[i] == x) && (i == |s| <==> x !in s)
  {
    if s == [] then 0 else if s[0] == x then 0 else 1 + Find(s[1..], x)
  }

  class PhysicsEngine {
    var underForce: seq<nat>
    var toAdd: seq<nat>
    /** The live movables and their forces. */
    var forces: map<nat, Vector>
    /** Whom the last tick moved. */
    ghost var moved: seq<nat>

    ghost function View(): PL.Lists
      reads this
    {
      PL.Lists(underForce, toAdd, forces)
    }

    constructor ()
      ensures View() == PL.Lists([], [], map[]) && PL.Inv(View())
    {
      underForce, toAdd, forces, moved := [], [], map[], [];
    }

    method Add(id: nat)
      modifies `toAdd
      ensures toAdd == old(toAdd) + [id]
    {
      toAdd := toAdd + [id];
    }

    /** Movable::ApplyForce, as far as the engine is concerned. */
    method ApplyForce(id: nat, addition: Vector)
      modifies `toAdd, `forces
      ensures View() == PL.ApplyForce(old(View()), id, addition)
      ensures forces == if id in old(forces) then old(forces)[id := Plus(old(forces)[id], addition)] else old(forces)
      ensures toAdd == if id in old(forces) && old(forces)[id] == ZERO && addition != ZERO then old(toAdd) + [id] else old(toAdd)
    {
      if id !in forces || addition == ZERO { return; }
      if forces[id] == ZERO { Add(id); }
      forces := forces[id := Plus(forces[id], addition)];
    }

    /** Movable::ProcessForce. */
    method ProcessForce(effects: seq<PL.Effect>)
      modifies `toAdd, `forces
      ensures View() == PL.ReactAll(old(View()), effects)
    {
      for i := 0 to |effects|
        invariant View() == PL.ReactAll(old(View()), effects[..i])
      {
        assert effects[..i + 1][..i] == effects[..i];
        match effects[i] {
          case Push(id, addition) => ApplyForce(id, addition);
          case Slow(id, force) => if id in forces && forces[id] != ZERO { forces := forces[id := force]; }
          case Make(id) => if id !in forces { forces := forces[id := ZERO]; }
          case Kill(id) => forces := forces - {id};
        }
      }
      assert effects[..|effects|] == effects;
    }

    /** Who is gone or at rest leaves the list: they are collected, and then erased one by one. */
    method Clear()
      requires Distinct(underForce)
      modifies `underForce
      ensures underForce == PL.StillPushed(old(View()), old(underForce))
    {
      hide Resting, Without, Find, PL.StillPushed, Distinct, PL.Pushed;
      ghost var l := View();
      var toRemove := [];
      RestingNone(l);
      for i := 0 to |underForce|
        invariant underForce == l.underForce
        invariant toRemove == Resting(l, l.underForce[..i])
      {
        RestingNext(l, l.underForce, i);
        PushedIs(l, underForce[i]);
        if underForce[i] !in forces || forces[underForce[i]] == ZERO {
          toRemove := toRemove + [underForce[i]];
        }
      }
      assert l.underForce[..|l.underForce|] == l.underForce;
      RestingIs(l, l.underForce);
      WithoutNone(l.underForce);
      for i := 0 to |toRemove|
        invariant underForce == Without(l.underForce, toRemove[..i])
      {
        var at := Find(underForce, toRemove[i]);
        EraseNext(l.underForce, toRemove, i, at);
        underForce := underForce[..at] + underForce[at + 1..];
      }
      assert toRemove[..|toRemove|] == toRemove;
      WithoutResting(l, l.underForce, toRemove);
    }

    method ProcessPhysics(react: PL.Reaction)
      requires Distinct(underForce)
      modifies this
      ensures var r := PL.ProcessPhysics(old(View()), react); View() == r.0 && moved == r.1
    {
      ghost var l := View();
      Clear();
      AddNew(l);
      Move(react);
    }

    /** Who was pushed since the last tick, and still is, joins the list. */
    method AddNew(ghost l: PL.Lists)
      requires l.toAdd == toAdd && l.forces == forces && underForce == PL.StillPushed(l, l.underForce)
      modifies `underForce, `toAdd
      ensures View() == PL.Prepare(l)
    {
      ghost var kept := underForce;
      for i := 0 to |toAdd|
        invariant toAdd == l.toAdd && underForce == PL.Merge(l, kept, toAdd[..i])
      {
        var id := toAdd[i];
        assert toAdd[..i + 1][..i] == toAdd[..i];
        if id !in forces { continue; }
        if forces[id] == ZERO { continue; }
        var at := Find(underForce, id);
        if at == |underForce| {
          underForce := underForce + [id];
        }
      }
      assert toAdd[..|toAdd|] == toAdd;
      if |toAdd| > 0 {
        underForce := PL.SortIds(underForce);
        toAdd := [];
      }
    }

    method Move(react: PL.Reaction)
      modifies `toAdd, `forces, `moved
      ensures var r := PL.Moves(old(View()), react, 0); View() == r.0 && moved == r.1
    {
      moved := [];
      ghost var p := View();
      assert [] + PL.Moves(p, react, 0).1 == PL.Moves(p, react, 0).1;
      for i := 0 to |underForce|
        invariant var r := PL.Moves(View(), react, i); PL.Moves(p, react, 0) == (r.0, moved + r.1)
      {
        ghost var before, sofar := View(), moved;
        var id := underForce[i];
        PL.ReactKeepsList(before, react(id, i));
        hide PL.ReactAll;
        if id !in forces || forces[id] == ZERO { continue; }
        ProcessForce(react(id, i));
        moved := moved + [id];
        ghost var r := PL.Moves(View(), react, i + 1);
        assert PL.Moves(before, react, i) == (r.0, [id] + r.1);
        assert sofar + ([id] + r.1) == moved + r.1;
      }
      assert moved + [] == moved;
    }
  }

  // ----- clearing in two passes

  /** Those of a list that are not under force. */
  function Resting(l: PL.Lists, ids: seq<nat>): seq<nat> {
    if ids == [] then []
    else
      var r := Resting(l, ids[..|ids| - 1]);
      if PL.Pushed(l, ids[|ids| - 1]) then r else r + [ids[|ids| - 1]]
  }

  /** A list without some ids. */
  function Without(s: seq<nat>, gone: seq<nat>): seq<nat> {
    if s == [] then []
    else
      var r := Without(s[..|s| - 1], gone);
      if s[|s| - 1] in gone then r else r + [s[|s| - 1]]
  }

  lemma EraseNext(s: seq<nat>, gone: seq<nat>, i: nat, at: nat)
    requires Distinct(s) && Distinct(gone) && i < |gone| && gone[i] in s
    requires var w := Without(s, gone[..i]);
      at <= |w| && (at < |w| ==> w[at] == gone[i]) && (at == |w| <==> gone[i] !in w)
    ensures var w := Without(s, gone[..i]);
      at < |w| && Without(s, gone[..i + 1]) == w[..at] + w[at + 1..]
  {
    hide Without;
    var w := Without(s, gone[..i]);
    assert gone[..i] + [gone[i]] == gone[..i + 1];
    assert gone[i] !in gone[..i];
    WithoutIs(s, gone[..i]);
    EraseIsWithout(w, at);
    WithoutTwice(s, gone[..i], [gone[i]]);
  }

  lemma PushedIs(l: PL.Lists, id: nat)
    ensures PL.Pushed(l, id) == (id in l.forces && l.forces[id] != ZERO)
  {}

  lemma RestingNone(l: PL.Lists)
    ensures Resting(l, []) == []
  {}

  lemma RestingNext(l: PL.Lists, ids: seq<nat>, i: nat)
    requires i < |ids|
    ensures Resting(l, ids[..i + 1]) == if PL.Pushed(l, ids[i]) then Resting(l, ids[..i]) else Resting(l, ids[..i]) + [ids[i]]
  {
    assert ids[..i + 1][..i] == ids[..i];
  }

  lemma {:induction false} RestingIs(l: PL.Lists, ids: seq<nat>)
    ensures forall id :: id in Resting(l, ids) <==> id in ids && !PL.Pushed(l, id)
    ensures Distinct(ids) ==> Distinct(Resting(l, ids))
  {
    hide PL.Pushed;
    if ids != [] {
      RestingIs(l, ids[..|ids| - 1]);
      assert ids == ids[..|ids| - 1] + [ids[|ids| - 1]];
    }
  }

  lemma {:induction false} WithoutNone(s: seq<nat>)
    ensures Without(s, []) == s
  {
    if s != [] {
      WithoutNone(s[..|s| - 1]);
      assert s == s[..|s| - 1] + [s[|s| - 1]];
    }
  }

  lemma {:induction false} WithoutIs(s: seq<nat>, gone: seq<nat>)
    ensures forall id :: id in Without(s, gone) <==> id in s && id !in gone
    ensures Distinct(s) ==> Distinct(Without(s, gone))
  {
    if s != [] {
      WithoutIs(s[..|s| - 1], gone);
      assert s == s[..|s| - 1] + [s[|s| - 1]];
    }
  }

  /** Erasing at a place takes out just that id. */
  lemma {:induction false} EraseIsWithout(w: seq<nat>, at: nat)
    requires Distinct(w) && at < |w|
    ensures Without(w, [w[at]]) == w[..at] + w[at + 1..]
  {
    var n := |w| - 1;
    if at == n {
      WithoutOther(w[..n], [], w[n]);
      WithoutNone(w[..n]);
      assert [] + [w[n]] == [w[n]];
    } else {
      EraseIsWithout(w[..n], at);
      ErasedBefore(w, at);
    }
  }

  lemma ErasedBefore(w: seq<nat>, at: nat)
    requires at + 1 < |w|
    ensures var n := |w| - 1; w[..n][..at] + w[..n][at + 1..] + [w[n]] == w[..at] + w[at + 1..]
  {
    var n := |w| - 1;
    assert w[..n][..at] == w[..at];
    assert w[..n][at + 1..] + [w[n]] == w[at + 1..];
  }

  lemma {:induction false} WithoutTwice(s: seq<nat>, a: seq<nat>, b: seq<nat>)
    ensures Without(Without(s, a), b) == Without(s, a + b)
  {
    if s != [] {
      var n := |s| - 1;
      WithoutTwice(s[..n], a, b);
      var r := Without(s[..n], a);
      if s[n] !in a {
        assert (r + [s[n]])[..|r|] == r;
      }
    }
  }

  lemma {:induction false} WithoutOther(s: seq<nat>, gone: seq<nat>, x: nat)
    requires x !in s
    ensures Without(s, gone + [x]) == Without(s, gone)
  {
    if s != [] {
      WithoutOther(s[..|s| - 1], gone, x);
      assert s == s[..|s| - 1] + [s[|s| - 1]];
    }
  }

  lemma {:induction false} WithoutResting(l: PL.Lists, s: seq<nat>, gone: seq<nat>)
    requires forall id :: id in s ==> (id in gone <==> !PL.Pushed(l, id))
    ensures Without(s, gone) == PL.StillPushed(l, s)
  {
    hide PL.Pushed;
    if s != [] {
      assert s == s[..|s| - 1] + [s[|s| - 1]];
      WithoutResting(l, s[..|s| - 1], gone);
    }
  }
}
