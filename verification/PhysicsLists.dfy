/** The physics engine's lists of who is under force (sources/core/objects/PhysicsEngine.cpp:17-20, 85-143), while the
    objects it moves push others.
 */
module PhysicsLists {
  import opened KvGlobals
  import opened Sequences

  /** What moving an object does: a movable is pushed, a movable under force gets another force (perhaps none), one is
      made, one is deleted. */
  datatype Effect = Push(id: nat, addition: Vector) | Slow(id: nat, force: Vector) | Make(id: nat) | Kill(id: nat)

  /** The two lists, and the live movables with their forces. */
  datatype Lists = Lists(underForce: seq<nat>, toAdd: seq<nat>, forces: map<nat, Vector>)

  type Reaction = (nat, nat) -> seq<Effect>

  /** Live, and under force. */
  predicate Pushed(l: Lists, id: nat) {
    id in l.forces && l.forces[id] != ZERO
  }

  /** Movable::ApplyForce: who had no force is reported to the engine. */
  function ApplyForce(l: Lists, id: nat, addition: Vector): Lists {
    if id !in l.forces || addition == ZERO then l
    else
      var m := l.(forces := l.forces[id := Plus(l.forces[id], addition)]);
      if l.forces[id] == ZERO then m.(toAdd := l.toAdd + [id]) else m
  }

  function React(l: Lists, e: Effect): Lists {
    match e
    case Push(id, addition) => ApplyForce(l, id, addition)
    case Slow(id, force) => if Pushed(l, id) then l.(forces := l.forces[id := force]) else l
    case Make(id) => if id in l.forces then l else l.(forces := l.forces[id := ZERO])
    case Kill(id) => l.(forces := l.forces - {id})
  }

  function ReactAll(l: Lists, es: seq<Effect>): Lists {
    if es == [] then l else React(ReactAll(l, es[..|es| - 1]), es[|es| - 1])
  }

  // ----- one tick

  /** Those of a list that are under force. */
  function StillPushed(l: Lists, ids: seq<nat>): seq<nat> {
    if ids == [] then []
    else
      var r := StillPushed(l, ids[..|ids| - 1]);
      if Pushed(l, ids[|ids| - 1]) then r + [ids[|ids| - 1]] else r
  }

  /** The new ones behind, those under force and not yet listed. */
  function Merge(l: Lists, list: seq<nat>, ids: seq<nat>): seq<nat> {
    if ids == [] then list
    else
      var r, id := Merge(l, list, ids[..|ids| - 1]), ids[|ids| - 1];
      if Pushed(l, id) && id !in r then r + [id] else r
  }

  predicate Increasing(s: seq<nat>) {
    forall i, j :: 0 <= i < j < |s| ==> s[i] < s[j]
  }

  /** `t` is `s` sorted. */
  ghost predicate SortedOf(s: seq<nat>, t: seq<nat>) {
    multiset(t) == multiset(s) && NotDecreasing(t)
  }

  function Place(s: seq<nat>, x: nat): seq<nat> {
    if s == [] then [x] else if x <= s[0] then [x] + s else [s[0]] + Place(s[1..], x)
  }

  function SortIds(s: seq<nat>): seq<nat> {
    if s == [] then [] else Place(SortIds(s[..|s| - 1]), s[|s| - 1])
  }

  /** Before anything moves: the lists are put in order. */
  function Prepare(l: Lists): Lists {
    var kept := StillPushed(l, l.underForce);
    if l.toAdd == [] then l.(underForce := kept)
    else l.(underForce := SortIds(Merge(l, kept, l.toAdd)), toAdd := [])
  }

  lemma {:induction false} ReactKeepsList(l: Lists, es: seq<Effect>)
    ensures ReactAll(l, es).underForce == l.underForce
  {
    if es != [] { ReactKeepsList(l, es[..|es| - 1]); }
  }

  /** The turn of the one at place `i`: who has no force by then, or is gone, is passed over. */
  function MoveAt(l: Lists, react: Reaction, i: nat): (m: Lists)
    requires i < |l.underForce|
    ensures m.underForce == l.underForce
  {
    ReactKeepsList(l, react(l.underForce[i], i));
    if Pushed(l, l.underForce[i]) then ReactAll(l, react(l.underForce[i], i)) else l
  }

  /** The moves from place `i` on: the lists after them, and who was moved. */
  function Moves(l: Lists, react: Reaction, i: nat): (Lists, seq<nat>)
    decreases |l.underForce| - i
  {
    if i >= |l.underForce| then (l, [])
    else
      var r := Moves(MoveAt(l, react, i), react, i + 1);
      (r.0, if Pushed(l, l.underForce[i]) then [l.underForce[i]] + r.1 else r.1)
  }

  function ProcessPhysics(l: Lists, react: Reaction): (Lists, seq<nat>) {
    Moves(Prepare(l), react, 0)
  }

  // ----- what stays true

  /** Nobody is listed twice as under force, and everyone under force is in one of the lists. */
  ghost predicate Inv(l: Lists) {
    Distinct(l.underForce) && forall id :: Pushed(l, id) ==> id in l.underForce || id in l.toAdd
  }

  lemma {:induction false} ReactKeeps(l: Lists, es: seq<Effect>)
    requires Inv(l)
    ensures Inv(ReactAll(l, es))
  {
    if es != [] {
      ReactKeeps(l, es[..|es| - 1]);
      OneKeeps(ReactAll(l, es[..|es| - 1]), es[|es| - 1]);
      hide Inv;
    }
  }

  lemma OneKeeps(l: Lists, e: Effect)
    requires Inv(l)
    ensures Inv(React(l, e))
  {
    hide Plus;
    assert forall id :: id in l.toAdd ==> id in l.toAdd + [if e.Push? then e.id else 0];
  }

  lemma {:induction false} StillPushedIs(l: Lists, ids: seq<nat>)
    ensures forall id :: id in StillPushed(l, ids) <==> id in ids && Pushed(l, id)
    ensures Distinct(ids) ==> Distinct(StillPushed(l, ids))
    ensures Increasing(ids) ==> Increasing(StillPushed(l, ids))
  {
    hide Pushed;
    if ids != [] {
      var n := |ids| - 1;
      StillPushedIs(l, ids[..n]);
      assert ids == ids[..n] + [ids[n]];
      var r := StillPushed(l, ids[..n]);
      assert Increasing(ids) ==> forall x :: x in ids[..n] ==> x < ids[n];
      assert forall k :: 0 <= k < |r| ==> r[k] in r;
    }
  }

  lemma {:induction false} MergeIs(l: Lists, list: seq<nat>, ids: seq<nat>)
    requires Distinct(list)
    ensures Distinct(Merge(l, list, ids))
    ensures forall id :: id in Merge(l, list, ids) <==> id in list || (id in ids && Pushed(l, id))
  {
    hide Pushed;
    if ids != [] {
      var n := |ids| - 1;
      MergeIs(l, list, ids[..n]);
      assert ids == ids[..n] + [ids[n]];
    }
  }

  predicate NotDecreasing(s: seq<nat>) {
    forall i, j :: 0 <= i < j < |s| ==> s[i] <= s[j]
  }

  lemma {:induction false} PlaceHolds(s: seq<nat>, x: nat)
    ensures multiset(Place(s, x)) == multiset(s) + multiset{x}
    ensures forall y :: y in Place(s, x) <==> y in s || y == x
  {
    if s != [] && x > s[0] {
      PlaceHolds(s[1..], x);
      assert s == [s[0]] + s[1..];
    }
  }

  lemma {:induction false} PlaceInOrder(s: seq<nat>, x: nat)
    requires NotDecreasing(s)
    ensures NotDecreasing(Place(s, x))
  {
    if s != [] && x > s[0] {
      PlaceInOrder(s[1..], x);
      PlaceHolds(s[1..], x);
      var r := Place(s[1..], x);
      assert forall k :: 0 <= k < |r| ==> r[k] in r;
    }
  }

  lemma PlaceIs(s: seq<nat>, x: nat)
    requires NotDecreasing(s)
    ensures SortedOf(s + [x], Place(s, x))
  {
    PlaceHolds(s, x);
    PlaceInOrder(s, x);
    assert multiset(s + [x]) == multiset(s) + multiset{x};
    hide Place;
  }

  lemma {:induction false} SortIdsIs(s: seq<nat>)
    ensures SortedOf(s, SortIds(s))
  {
    if s != [] {
      var n := |s| - 1;
      SortIdsIs(s[..n]);
      PlaceIs(SortIds(s[..n]), s[n]);
      assert s == s[..n] + [s[n]];
    }
  }

  lemma SortedDistinct(s: seq<nat>, t: seq<nat>)
    requires Distinct(s) && SortedOf(s, t)
    ensures Increasing(t) && forall id :: id in t <==> id in s
  {
    assert forall id :: id in t <==> id in multiset(t);
    assert forall id :: id in s <==> id in multiset(s);
    forall i, j | 0 <= i < j < |t| ensures t[i] < t[j] {
      OnceInDistinct(s, t[i]);
      TwiceCounts(t, i, j);
    }
  }

  lemma {:induction false} OnceInDistinct(s: seq<nat>, x: nat)
    requires Distinct(s)
    ensures multiset(s)[x] <= 1
  {
    if s != [] {
      OnceInDistinct(s[1..], x);
      assert s == [s[0]] + s[1..];
      assert s[0] !in s[1..];
    }
  }

  lemma TwiceCounts(t: seq<nat>, i: nat, j: nat)
    requires i < j < |t|
    ensures t[i] == t[j] ==> multiset(t)[t[i]] >= 2
  {
    var a, b := t[..j], t[j..];
    assert t == a + b && a[i] == t[i] && b[0] == t[j];
    assert a[i] in multiset(a) && b[0] in multiset(b);
  }

  /** Putting the lists in order: increasing ids, exactly those under force, nobody waiting. */
  lemma PrepareIs(l: Lists)
    requires Inv(l) && (l.toAdd == [] ==> Increasing(l.underForce))
    ensures var p := Prepare(l);
      && Increasing(p.underForce) && p.toAdd == [] && p.forces == l.forces
      && forall id :: id in p.underForce <==> Pushed(l, id)
  {
    var kept := StillPushed(l, l.underForce);
    StillPushedIs(l, l.underForce);
    hide Pushed;
    if l.toAdd != [] {
      var merged := Merge(l, kept, l.toAdd);
      MergeIs(l, kept, l.toAdd);
      SortIdsIs(merged);
      SortedDistinct(merged, SortIds(merged));
    }
  }

  lemma {:induction false} MovesKeep(l: Lists, react: Reaction, i: nat)
    requires Inv(l)
    ensures var m := Moves(l, react, i).0; Inv(m) && m.underForce == l.underForce
    decreases |l.underForce| - i
  {
    hide Inv, Pushed, ReactAll;
    if i < |l.underForce| {
      ReactKeeps(l, react(l.underForce[i], i));
      MovesKeep(MoveAt(l, react, i), react, i + 1);
    }
  }

  /** After every tick the ids under force strictly increase, and every live movable under force is listed, also those
      that were pushed while others moved. */
  lemma TickKeeps(l: Lists, react: Reaction)
    requires Inv(l) && (l.toAdd == [] ==> Increasing(l.underForce))
    ensures var m := ProcessPhysics(l, react).0; Inv(m) && Increasing(m.underForce)
  {
    PrepareIs(l);
    var p := Prepare(l);
    assert Inv(p);
    MovesKeep(p, react, 0);
    hide Inv, Prepare, Moves;
  }

  /** Everything that happens between two ticks, and the ticks. */
  datatype Turn = Between(effects: seq<Effect>) | Tick(react: Reaction)

  function Take(l: Lists, t: Turn): Lists {
    match t
    case Between(es) => ReactAll(l, es)
    case Tick(react) => ProcessPhysics(l, react).0
  }

  function TakeAll(l: Lists, ts: seq<Turn>): Lists {
    if ts == [] then l else Take(TakeAll(l, ts[..|ts| - 1]), ts[|ts| - 1])
  }

  /** In every run the list stays increasing and complete. */
  lemma {:induction false} RunKeeps(l: Lists, ts: seq<Turn>)
    requires Inv(l) && Increasing(l.underForce)
    ensures Inv(TakeAll(l, ts)) && Increasing(TakeAll(l, ts).underForce)
  {
    if ts != [] {
      RunKeeps(l, ts[..|ts| - 1]);
      var m := TakeAll(l, ts[..|ts| - 1]);
      match ts[|ts| - 1]
      case Between(es) =>
        ReactKeepsList(m, es);
        ReactKeeps(m, es);
      case Tick(react) => TickKeeps(m, react);
    }
  }

  // ----- who moves

  lemma {:induction false} MovedAreListed(l: Lists, react: Reaction, i: nat)
    requires Increasing(l.underForce)
    ensures var moved := Moves(l, react, i).1;
      Increasing(moved) && forall id :: id in moved ==> exists k :: i <= k < |l.underForce| && l.underForce[k] == id
    decreases |l.underForce| - i
  {
    hide Pushed, MoveAt;
    if i < |l.underForce| {
      var m := MoveAt(l, react, i);
      MovedAreListed(m, react, i + 1);
      var r := Moves(m, react, i + 1).1;
      assert forall k :: 0 <= k < |r| ==> r[k] in r;
    }
  }

  /** The lists when the moves that are at place `i` get to place `j`. */
  function Reached(l: Lists, react: Reaction, i: nat, j: nat): (m: Lists)
    requires i <= j <= |l.underForce|
    ensures m.underForce == l.underForce
    decreases j - i
  {
    if i == j then l else Reached(MoveAt(l, react, i), react, i + 1, j)
  }

  lemma {:induction false} MovedAtTurn(l: Lists, react: Reaction, i: nat, j: nat)
    requires Increasing(l.underForce) && i <= j < |l.underForce|
    ensures l.underForce[j] in Moves(l, react, i).1 <==> Pushed(Reached(l, react, i, j), l.underForce[j])
    decreases j - i
  {
    hide Pushed, MoveAt;
    var m := MoveAt(l, react, i);
    MovedAreListed(m, react, i + 1);
    if i < j {
      MovedAtTurn(m, react, i + 1, j);
    }
  }

  /** Whatever moving does to others, a tick moves by increasing id, at most once each, and only those under force before
      it; of these exactly the ones that are still, or again, under force when their turn comes. */
  lemma EveryoneMovesOnce(l: Lists, react: Reaction)
    requires Inv(l) && (l.toAdd == [] ==> Increasing(l.underForce))
    ensures var p := Prepare(l);
      var moved := ProcessPhysics(l, react).1;
      && Increasing(moved)
      && (forall id :: id in moved ==> Pushed(l, id))
      && (forall id :: Pushed(l, id) ==> id in p.underForce)
      && forall j :: 0 <= j < |p.underForce| ==> (p.underForce[j] in moved <==> Pushed(Reached(p, react, 0, j), p.underForce[j]))
  {
    PrepareIs(l);
    var p := Prepare(l);
    hide Prepare, Pushed, Moves, Reached;
    MovedAreListed(p, react, 0);
    forall j | 0 <= j < |p.underForce|
      ensures p.underForce[j] in Moves(p, react, 0).1 <==> Pushed(Reached(p, react, 0, j), p.underForce[j])
    {
      MovedAtTurn(p, react, 0, j);
    }
  }

  // ----- when nobody stops those behind

  /** An effect that does not stop `id`: it is none of a push, which could cancel its force, a stop or a death. */
  predicate Spares(e: Effect, id: nat) {
    e.Make? || e.id != id || (e.Slow? && e.force != ZERO)
  }

  /** The moves before place `j` do not stop the one at `j`; to all others they do anything. */
  predicate Spared(l: Lists, react: Reaction, j: nat)
    requires j < |l.underForce|
  {
    forall k {:trigger l.underForce[k]} :: 0 <= k < j ==> forall e :: e in react(l.underForce[k], k) ==> Spares(e, l.underForce[j])
  }

  lemma {:induction false} SparedKeeps(l: Lists, es: seq<Effect>, id: nat)
    requires (forall e :: e in es ==> Spares(e, id)) && Pushed(l, id)
    ensures Pushed(ReactAll(l, es), id)
  {
    if es != [] {
      var e := es[|es| - 1];
      SparedKeeps(l, es[..|es| - 1], id);
      assert e in es;
      OneSpares(ReactAll(l, es[..|es| - 1]), e, id);
    }
  }

  lemma OneSpares(l: Lists, e: Effect, id: nat)
    requires Spares(e, id)
    ensures Pushed(l, id) ==> Pushed(React(l, e), id)
  {
    hide Plus;
  }

  lemma {:induction false} SparedReached(l: Lists, react: Reaction, i: nat, j: nat)
    requires i <= j < |l.underForce| && Spared(l, react, j) && Pushed(l, l.underForce[j])
    ensures Pushed(Reached(l, react, i, j), l.underForce[j])
    decreases j - i
  {
    hide Pushed, Spares, ReactAll;
    if i < j {
      SparedKeeps(l, react(l.underForce[i], i), l.underForce[j]);
      SparedReached(MoveAt(l, react, i), react, i + 1, j);
    }
  }

  /** Who is left alone by the moves before it moves exactly if it was under force before the tick. */
  lemma SparedMove(l: Lists, react: Reaction, id: nat)
    requires Inv(l) && (l.toAdd == [] ==> Increasing(l.underForce))
    requires var p := Prepare(l).underForce;
      forall j :: 0 <= j < |p| && p[j] == id ==> Spared(Prepare(l), react, j)
    ensures id in ProcessPhysics(l, react).1 <==> Pushed(l, id)
  {
    PrepareIs(l);
    EveryoneMovesOnce(l, react);
    var p := Prepare(l);
    if Pushed(l, id) {
      assert Pushed(p, id);
      var j :| 0 <= j < |p.underForce| && p.underForce[j] == id;
      hide Prepare, Pushed, Spared, Reached, Moves;
      SparedReached(p, react, 0, j);
    }
  }
}
