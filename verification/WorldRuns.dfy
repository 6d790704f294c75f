/** Why every save of a running game loads: what the factory, the objects and the processor do to the table, from
    the world that PrepareToMapgen makes (sources/core/CoreImplementation.cpp:468-481) on.
 */
module WorldRuns {
  import opened Options
  import opened Sequences
  import opened SerialFormat
  import opened WorldFormat
  import opened WorldTheorems

  /** What happens to the table: an object is made, its frequency is set, its members change, it is deleted, or the
      processor drops the entry at a place of its list. */
  datatype Op =
    | Create(kind: Name, members: Value, fires: nat) | Freq(id: nat, freq: int)
    | Change(id: nat, members: Value, fires: nat) | Delete(id: nat) | Drop(place: nat)

  /** ObjectFactory::CreateImpl, for an object that its constructor leaves with these members. */
  function CreateImpl(w: World, kind: Name, members: Value, fires: nat): World
    requires w.id > 0
  {
    var table := if w.id >= |w.table| then w.table + seq(2 * w.id - |w.table|, _ => None) else w.table;
    World(table[w.id := Some(Obj(kind, w.id, 0, members, {}, fires))], w.id + 1, w.globals)
  }

  /** ObjectFactory::DeleteLater: the table forgets the object at once. */
  function DeleteLater(w: World, id: nat): World
    requires id < |w.table|
  {
    w.(table := w.table[id := None])
  }

  /** How the processor takes an entry out of its list. */
  function DropEntry(o: Obj, place: nat): Obj
    requires o.members.Vector? && place < |o.members.values|
  {
    o.(lookup := o.lookup - {Ids(o.members)[place]}, members := Vector(SwapOut(o.members.values, place)))
  }

  /** Live, with a frequency. */
  predicate Driven(w: World, i: nat) {
    At(w, i).Some? && At(w, i).value.freq != 0
  }

  ghost predicate Allowed(cs: Classes, w: World, op: Op)
    requires GetProcessor(cs, w).Some?
  {
    var p := GetProcessor(cs, w).value;
    match op
    case Create(kind, members, _) =>
      && kind in cs.members && Fits(members, cs.members[kind]) && InSigned(w.id + 1, 4)
      && (kind == cs.processor ==> members == Vector([]))
    case Freq(id, freq) =>
      At(w, id).Some? && InSigned(freq, 4) && (freq != 0 ==> w.globals < id && p <= id)
    case Change(id, members, _) =>
      && At(w, id).Some? && At(w, id).value.kind != cs.processor && At(w, id).value.kind in cs.members && Fits(members, cs.members[At(w, id).value.kind])
      && (id == w.globals ==> ProcessorMember(members) == p)
    case Delete(id) => At(w, id).Some? && id != w.globals && id != p
    case Drop(place) =>
      place < |Ids(w.table[p].value.members)| && !Driven(w, Ids(w.table[p].value.members)[place])
  }

  ghost function Apply(cs: Classes, w: World, op: Op): World
    requires Booted(cs, w) && Allowed(cs, w, op)
  {
    var p := GetProcessor(cs, w).value;
    match op
    case Create(kind, members, fires) => CreateImpl(w, kind, members, fires)
    case Freq(id, freq) => SetFreq(cs, w, id, freq).value
    case Change(id, members, fires) => w.(table := w.table[id := Some(w.table[id].value.(members := members, fires := fires))])
    case Delete(id) => DeleteLater(w, id)
    case Drop(place) => w.(table := w.table[p := Some(DropEntry(w.table[p].value, place))])
  }

  /** A processor's list: ids handed out, none twice. */
  predicate Tidy(w: World, list: seq<nat>) {
    Distinct(list) && forall x :: x in list ==> x < w.id
  }

  /** A world that runs: it has its processor, whose list is tidy, and everything is in order. */
  ghost predicate Booted(cs: Classes, w: World) {
    && WellFormed(cs, w) && GetProcessor(cs, w).Some?
    && Tidy(w, Ids(At(w, GetProcessor(cs, w).value).value.members))
    && forall i: nat :: InOrderAt(cs, w, i)
  }

  // ----- every operation keeps the world booted

  /** Booted, object by object. */
  ghost predicate Keeps(cs: Classes, w: World, p: nat) {
    && cs.Valid() && 1 <= w.id && InSigned(w.id, 4) && w.globals < Pow256(4) && |w.table| >= 1 && w.table[0].None?
    && GetProcessor(cs, w) == Some(p) && p < |w.table| && w.table[p].Some? && Tidy(w, Ids(w.table[p].value.members))
    && (forall i: nat :: i < |w.table| && w.table[i].Some? ==> GoodObject(cs, w, i, w.table[i].value))
    && (forall i: nat :: Driven(w, i) ==> i in Ids(w.table[p].value.members) && w.globals < i && p <= i)
  }

  lemma KeepsIsBooted(cs: Classes, w: World)
    ensures Booted(cs, w) <==> GetProcessor(cs, w).Some? && Keeps(cs, w, GetProcessor(cs, w).value)
  {
    hide GoodObject, GetProcessor, Ids, Tidy;
    ProcessorIs(cs, w);
    if Booted(cs, w) {
      var p := GetProcessor(cs, w).value;
      forall i: nat | Driven(w, i) ensures i in Ids(w.table[p].value.members) && w.globals < i && p <= i {
        assert InOrderAt(cs, w, i) && Registered(cs, w, i);
      }
    }
    if GetProcessor(cs, w).Some? && Keeps(cs, w, GetProcessor(cs, w).value) {
      forall i: nat ensures InOrderAt(cs, w, i) && (Driven(w, i) ==> Registered(cs, w, i)) {
        assert Driven(w, i) ==> w.globals < i;
      }
      assert forall i: nat :: i < |w.table| && w.table[i].Some? && w.table[i].value.freq != 0 ==> Driven(w, i);
    }
  }

  /** The processor is found by the globals' pointer and the kinds of two objects. */
  lemma SameProcessor(cs: Classes, w: World, v: World, p: nat)
    requires GetProcessor(cs, w) == Some(p) && v.globals == w.globals
    requires At(v, v.globals).Some? && At(v, v.globals).value.kind == cs.globals
    requires ProcessorMember(At(v, v.globals).value.members) == p
    requires At(v, p).Some? && At(v, p).value.kind == cs.processor
    ensures GetProcessor(cs, v) == Some(p)
  {
    hide ProcessorMember;
  }

  lemma ProcessorParts(cs: Classes, w: World, p: nat)
    requires GetProcessor(cs, w) == Some(p)
    ensures At(w, w.globals).Some? && At(w, w.globals).value.kind == cs.globals
    ensures ProcessorMember(At(w, w.globals).value.members) == p
    ensures At(w, p).Some? && At(w, p).value.kind == cs.processor
  {}

  lemma CreateKeeps(cs: Classes, w: World, p: nat, kind: Name, members: Value, fires: nat)
    requires Keeps(cs, w, p) && Allowed(cs, w, Create(kind, members, fires))
    ensures Keeps(cs, CreateImpl(w, kind, members, fires), p)
  {
    var v := CreateImpl(w, kind, members, fires);
    ProcessorParts(cs, w, p);
    assert GoodObject(cs, w, p, w.table[p].value) && GoodObject(cs, w, w.globals, w.table[w.globals].value);
    assert forall i: nat :: At(v, i) == if i == w.id then v.table[w.id] else At(w, i);
    SameProcessor(cs, w, v, p);
    assert kind == cs.processor ==> IdSet(members) == {};
    hide Fits, GetProcessor, Ids, Distinct, IdSet;
    assert GoodObject(cs, v, w.id, v.table[w.id].value);
    assert forall i: nat :: Driven(v, i) ==> Driven(w, i);
  }

  lemma ChangeKeeps(cs: Classes, w: World, p: nat, id: nat, members: Value, fires: nat)
    requires Keeps(cs, w, p) && Allowed(cs, w, Change(id, members, fires))
    ensures Keeps(cs, w.(table := w.table[id := Some(w.table[id].value.(members := members, fires := fires))]), p)
  {
    var v := w.(table := w.table[id := Some(w.table[id].value.(members := members, fires := fires))]);
    ProcessorParts(cs, w, p);
    assert GoodObject(cs, w, id, w.table[id].value);
    assert forall i: nat :: At(v, i) == if i == id then v.table[id] else At(w, i);
    SameProcessor(cs, w, v, p);
    hide Fits, GetProcessor, Ids, Distinct, IdSet;
    assert forall i: nat :: Driven(v, i) ==> Driven(w, i);
  }

  lemma DeleteKeeps(cs: Classes, w: World, p: nat, id: nat)
    requires Keeps(cs, w, p) && Allowed(cs, w, Delete(id))
    ensures Keeps(cs, DeleteLater(w, id), p)
  {
    var v := DeleteLater(w, id);
    ProcessorParts(cs, w, p);
    assert GoodObject(cs, w, id, w.table[id].value);
    assert forall i: nat :: At(v, i) == if i == id then None else At(w, i);
    SameProcessor(cs, w, v, p);
    hide Fits, GetProcessor, Ids, Distinct, IdSet;
    assert forall i: nat :: Driven(v, i) ==> Driven(w, i);
  }

  // ----- the processor's list

  /** Adding to the list: the id is in it, everything else as before. */
  lemma AddToList(o: Obj, id: nat)
    requires o.members.Vector? && Distinct(Ids(o.members)) && o.lookup == IdSet(o.members)
    ensures var a := AddTo(o, id);
      && a.members.Vector? && Distinct(Ids(a.members)) && a.lookup == IdSet(a.members)
      && IdSet(a.members) == IdSet(o.members) + {id}
      && a == o.(members := a.members, lookup := a.lookup)
  {
    var a := AddTo(o, id);
    if id !in o.lookup {
      assert Ids(a.members) == Ids(o.members) + [id];
    } else {
      assert IdSet(o.members) + {id} == IdSet(o.members);
    }
  }

  lemma DropFromList(o: Obj, place: nat)
    requires o.members.Vector? && place < |o.members.values| && Distinct(Ids(o.members)) && o.lookup == IdSet(o.members)
    ensures var d := DropEntry(o, place);
      && d.members.Vector? && Distinct(Ids(d.members)) && d.lookup == IdSet(d.members)
      && (forall x :: x in Ids(d.members) <==> x in Ids(o.members) && x != Ids(o.members)[place])
      && d == o.(members := d.members, lookup := d.lookup)
  {
    var d := DropEntry(o, place);
    assert Ids(d.members) == SwapOut(Ids(o.members), place);
    SwapOutSet(Ids(o.members), place);
  }

  lemma {:induction false} FewDistinct(s: seq<nat>, n: nat)
    requires Distinct(s) && forall x :: x in s ==> x < n
    ensures |s| <= n
    decreases n
  {
    if n == 0 {
      assert forall i :: 0 <= i < |s| ==> s[i] in s;
    } else if exists i :: 0 <= i < |s| && s[i] == n - 1 {
      var i :| 0 <= i < |s| && s[i] == n - 1;
      SwapOutSet(s, i);
      FewDistinct(SwapOut(s, i), n - 1);
    } else {
      assert forall x :: x in s ==> x < n - 1;
      FewDistinct(s, n - 1);
    }
  }

  lemma ListFits(w: World, v: Value)
    requires v.Vector? && (forall i :: 0 <= i < |v.values| ==> v.values[i].UInt32?) && Tidy(w, Ids(v)) && InSigned(w.id, 4)
    ensures Fits(v, VectorT(UInt32T))
  {
    FewDistinct(Ids(v), w.id);
    forall i | 0 <= i < |v.values| ensures Fits(v.values[i], UInt32T) {
      assert Ids(v)[i] in Ids(v);
    }
  }

  /** A tidy list in the place of the processor's, with everything driven in it. */
  lemma NewList(cs: Classes, w: World, v: World, p: nat, o: Obj)
    requires Keeps(cs, w, p) && v == w.(table := w.table[p := Some(o)])
    requires o == w.table[p].value.(members := o.members, lookup := o.lookup)
    requires o.members.Vector? && (forall i :: 0 <= i < |o.members.values| ==> o.members.values[i].UInt32?)
    requires Tidy(w, Ids(o.members)) && o.lookup == IdSet(o.members)
    requires forall i: nat :: Driven(w, i) ==> i in Ids(o.members)
    ensures Keeps(cs, v, p)
  {
    ProcessorParts(cs, w, p);
    ListFits(w, o.members);
    assert GoodObject(cs, w, p, w.table[p].value);
    assert forall i: nat :: At(v, i) == if i == p then v.table[p] else At(w, i);
    NotBoth(cs, w, p);
    SameProcessor(cs, w, v, p);
    hide Fits, GetProcessor, Ids, Distinct, IdSet;
    assert GoodObject(cs, v, p, o);
    assert forall i: nat :: Driven(v, i) ==> Driven(w, i);
  }

  /** The globals and the processor are two objects. */
  lemma NotBoth(cs: Classes, w: World, p: nat)
    requires cs.Valid() && GetProcessor(cs, w) == Some(p)
    ensures w.globals != p
  {
    ProcessorParts(cs, w, p);
  }

  lemma ListOfProcessor(cs: Classes, w: World, p: nat)
    requires Keeps(cs, w, p)
    ensures var o := w.table[p].value;
      && o.members.Vector? && (forall i :: 0 <= i < |o.members.values| ==> o.members.values[i].UInt32?)
      && o.lookup == IdSet(o.members)
  {
    ProcessorParts(cs, w, p);
    var o := w.table[p].value;
    assert GoodObject(cs, w, p, o) && Fits(o.members, VectorT(UInt32T));
    forall i | 0 <= i < |o.members.values| ensures o.members.values[i].UInt32? {
      assert Fits(o.members.values[i], UInt32T);
    }
  }

  lemma DropKeeps(cs: Classes, w: World, p: nat, place: nat)
    requires Keeps(cs, w, p) && Allowed(cs, w, Drop(place))
    ensures w.table[p].value.members.Vector? && place < |w.table[p].value.members.values|
    ensures Keeps(cs, w.(table := w.table[p := Some(DropEntry(w.table[p].value, place))]), p)
  {
    ListOfProcessor(cs, w, p);
    var o := w.table[p].value;
    DropFromList(o, place);
    hide Fits, GetProcessor, Ids, GoodObject, DropEntry, IdSet;
    NewList(cs, w, w.(table := w.table[p := Some(DropEntry(o, place))]), p, DropEntry(o, place));
  }

  lemma FreqOnly(cs: Classes, w: World, p: nat, id: nat, freq: int)
    requires Keeps(cs, w, p) && At(w, id).Some? && InSigned(freq, 4)
    requires freq != 0 ==> w.globals < id && p <= id && id in Ids(w.table[p].value.members)
    ensures Keeps(cs, w.(table := w.table[id := Some(w.table[id].value.(freq := freq))]), p)
  {
    var v := w.(table := w.table[id := Some(w.table[id].value.(freq := freq))]);
    ProcessorParts(cs, w, p);
    assert GoodObject(cs, w, id, w.table[id].value);
    assert forall i: nat :: At(v, i) == if i == id then v.table[id] else At(w, i);
    SameProcessor(cs, w, v, p);
    hide Fits, GetProcessor, Ids, Tidy, IdSet;
    assert forall i: nat :: Driven(v, i) ==> Driven(w, i) || i == id;
  }

  lemma FreqKeeps(cs: Classes, w: World, p: nat, id: nat, freq: int)
    requires Keeps(cs, w, p) && Allowed(cs, w, Freq(id, freq))
    ensures SetFreq(cs, w, id, freq).Some? && Keeps(cs, SetFreq(cs, w, id, freq).value, p)
  {
    var v := w.(table := w.table[id := Some(w.table[id].value.(freq := freq))]);
    if freq == 0 {
      hide Keeps, GetProcessor;
      FreqOnly(cs, w, p, id, freq);
    } else {
      ProcessorParts(cs, w, p);
      ListOfProcessor(cs, w, p);
      assert GoodObject(cs, w, id, w.table[id].value);
      var o := w.table[p].value;
      AddToList(o, id);
      var a := AddTo(o, id);
      var u := w.(table := w.table[p := Some(a)]);
      AddedFits(cs, w, p, id);
      FreqOnly(cs, u, p, id, freq);
      SetFreqIs(cs, w, p, id, freq);
    }
  }

  lemma AddedFits(cs: Classes, w: World, p: nat, id: nat)
    requires Keeps(cs, w, p) && At(w, id).Some?
    ensures var u := w.(table := w.table[p := Some(AddTo(w.table[p].value, id))]);
      Keeps(cs, u, p) && id in Ids(u.table[p].value.members)
  {
    ListOfProcessor(cs, w, p);
    assert GoodObject(cs, w, id, w.table[id].value);
    var o := w.table[p].value;
    AddToList(o, id);
    var a := AddTo(o, id);
    assert forall i :: i in Ids(a.members) <==> i in IdSet(a.members);
    assert forall i :: i in Ids(o.members) <==> i in IdSet(o.members);
    assert forall i :: 0 <= i < |a.members.values| ==> a.members.values[i].UInt32?;
    hide Fits, GetProcessor, Ids, GoodObject, AddTo, IdSet, Distinct;
    NewList(cs, w, w.(table := w.table[p := Some(a)]), p, a);
  }

  /** Registering and then setting the frequency comes to the same as SetFreq. */
  lemma SetFreqIs(cs: Classes, w: World, p: nat, id: nat, freq: int)
    requires Keeps(cs, w, p) && At(w, id).Some? && freq != 0
    ensures var u := w.(table := w.table[p := Some(AddTo(w.table[p].value, id))]);
      SetFreq(cs, w, id, freq) == Some(u.(table := u.table[id := Some(u.table[id].value.(freq := freq))]))
  {
    var v := w.(table := w.table[id := Some(w.table[id].value.(freq := freq))]);
    ProcessorParts(cs, w, p);
    assert forall i: nat :: At(v, i) == if i == id then v.table[id] else At(w, i);
    SameProcessor(cs, w, v, p);
    hide GetProcessor, Tidy, GoodObject, Ids;
    var u := w.(table := w.table[p := Some(AddTo(w.table[p].value, id))]);
    assert v.table[p := Some(AddTo(v.table[p].value, id))] == u.table[id := Some(u.table[id].value.(freq := freq))];
  }

  /** Every operation keeps the world booted. */
  lemma OpKeeps(cs: Classes, w: World, op: Op)
    requires Booted(cs, w) && Allowed(cs, w, op)
    ensures Booted(cs, Apply(cs, w, op))
  {
    KeepsIsBooted(cs, w);
    KeepsIsBooted(cs, Apply(cs, w, op));
    var p := GetProcessor(cs, w).value;
    hide Booted;
    match op
    case Create(kind, members, fires) => CreateKeeps(cs, w, p, kind, members, fires);
    case Freq(id, freq) => FreqKeeps(cs, w, p, id, freq);
    case Change(id, members, fires) => ChangeKeeps(cs, w, p, id, members, fires);
    case Delete(id) => DeleteKeeps(cs, w, p, id);
    case Drop(place) => DropKeeps(cs, w, p, place);
  }

  // ----- whole runs

  /** A run of allowed operations leads from one world to another. */
  ghost predicate Reaches(cs: Classes, w: World, ops: seq<Op>, v: World)
    decreases |ops|
  {
    if ops == [] then w == v
    else Booted(cs, w) && Allowed(cs, w, ops[0]) && Reaches(cs, Apply(cs, w, ops[0]), ops[1..], v)
  }

  /** Whatever a game has done since it was set up, its save loads, into the world it was made from. */
  lemma {:induction false} EverySaveLoads(cs: Classes, w: World, ops: seq<Op>, v: World, more: seq<Byte>)
    requires Booted(cs, w) && Reaches(cs, w, ops, v)
    ensures Booted(cs, v) && Load(cs, Save(v) + more) == Some(Restored(v))
    decreases |ops|
  {
    hide Booted, Allowed, Apply;
    if ops == [] {
      BootedLoads(cs, w, more);
    } else {
      OpKeeps(cs, w, ops[0]);
      EverySaveLoads(cs, Apply(cs, w, ops[0]), ops[1..], v, more);
    }
  }

  lemma BootedLoads(cs: Classes, w: World, more: seq<Byte>)
    requires Booted(cs, w)
    ensures Load(cs, Save(w) + more) == Some(Restored(w))
  {
    hide WellFormed, InOrderAt, Load, Save, Restored;
    LoadRestores(cs, w, more);
  }

  // ----- the first world

  /** The objects PrepareToMapgen makes between the globals and the processor, and the rest of the globals. */
  datatype Start = Start(map_: Obj, random: Obj, physics: Obj, tail: Value)

  predicate GoodStart(cs: Classes, t: Type, b: Start) {
    Fits(b.tail, t) && GoodPart(cs, b.map_) && GoodPart(cs, b.random) && GoodPart(cs, b.physics)
  }

  predicate GoodPart(cs: Classes, o: Obj) {
    o.kind in cs.members && o.kind != cs.processor && Fits(o.members, cs.members[o.kind])
  }

  /** Tick 0, and the pointers: no generator of noise, the map, the random numbers, no lobby, the physics, the processor. */
  function FirstGlobals(processor: nat, tail: Value): Value {
    Pair(Int32(0), Pair(UInt32(0), Pair(UInt32(2), Pair(UInt32(3), Pair(UInt32(0), Pair(UInt32(4), Pair(UInt32(processor), tail)))))))
  }

  /** A new factory, five objects, and the pointers to them. */
  function PrepareToMapgen(cs: Classes, b: Start): World {
    var w1 := CreateImpl(World(seq(100, _ => None), 1, 1), cs.globals, FirstGlobals(0, b.tail), 0);
    var w2 := CreateImpl(w1, b.map_.kind, b.map_.members, 0);
    var w3 := CreateImpl(w2, b.random.kind, b.random.members, 0);
    var w4 := CreateImpl(w3, b.physics.kind, b.physics.members, 0);
    var w5 := CreateImpl(w4, cs.processor, Vector([]), 0);
    w5.(table := w5.table[1 := Some(w5.table[1].value.(members := FirstGlobals(5, b.tail)))])
  }

  lemma GlobalsFit(tail: Value, t: Type, processor: nat)
    requires Fits(tail, t) && processor < 100
    ensures Fits(FirstGlobals(processor, tail), GlobalsType(t)) && ProcessorMember(FirstGlobals(processor, tail)) == processor
  {
    hide Fits;
    PointerFits(processor, tail, t);
    var p6, t6 := Pair(UInt32(processor), tail), PairT(UInt32T, t);
    PointerFits(4, p6, t6);
    var p5, t5 := Pair(UInt32(4), p6), PairT(UInt32T, t6);
    PointerFits(0, p5, t5);
    var p4, t4 := Pair(UInt32(0), p5), PairT(UInt32T, t5);
    PointerFits(3, p4, t4);
    var p3, t3 := Pair(UInt32(3), p4), PairT(UInt32T, t4);
    PointerFits(2, p3, t3);
    var p2, t2 := Pair(UInt32(2), p3), PairT(UInt32T, t3);
    PointerFits(0, p2, t2);
    TickFits(Pair(UInt32(0), p2), PairT(UInt32T, t2));
  }

  lemma PointerFits(id: nat, v: Value, t: Type)
    requires id < 100 && Fits(v, t)
    ensures Fits(Pair(UInt32(id), v), PairT(UInt32T, t))
  {
    assert Fits(UInt32(id), UInt32T);
  }

  lemma TickFits(v: Value, t: Type)
    requires Fits(v, t)
    ensures Fits(Pair(Int32(0), v), PairT(Int32T, t))
  {
    assert Fits(Int32(0), Int32T);
  }

  /** The table after PrepareToMapgen. */
  lemma FirstTable(cs: Classes, b: Start)
    ensures var w := PrepareToMapgen(cs, b);
      && w.id == 6 && w.globals == 1 && |w.table| == 100
      && w.table[1] == Some(Obj(cs.globals, 1, 0, FirstGlobals(5, b.tail), {}, 0))
      && w.table[2] == Some(Obj(b.map_.kind, 2, 0, b.map_.members, {}, 0))
      && w.table[3] == Some(Obj(b.random.kind, 3, 0, b.random.members, {}, 0))
      && w.table[4] == Some(Obj(b.physics.kind, 4, 0, b.physics.members, {}, 0))
      && w.table[5] == Some(Obj(cs.processor, 5, 0, Vector([]), {}, 0))
      && forall i: nat :: i == 0 || 6 <= i < 100 ==> w.table[i].None?
  {
    hide FirstGlobals;
  }

  /** The first world is booted. */
  lemma FirstBooted(cs: Classes, t: Type, b: Start)
    requires cs.Valid() && cs.members[cs.globals] == GlobalsType(t) && GoodStart(cs, t, b)
    ensures Booted(cs, PrepareToMapgen(cs, b))
  {
    hide PrepareToMapgen, GoodObject, GoodStart, Fits, Booted, ProcessorMember, FirstGlobals, GlobalsType, InSigned, Pow256, GetProcessor;
    var w := PrepareToMapgen(cs, b);
    FirstTable(cs, b);
    forall i: nat | i < 100 && w.table[i].Some? ensures GoodObject(cs, w, i, w.table[i].value) { FirstGood(cs, t, b, i); }
    assert Fits(b.tail, t) by { TailFits(cs, t, b); }
    GlobalsFit(b.tail, t, 5);
    assert Ids(Vector([])) == [];
    assert forall i: nat :: !Driven(w, i);
    hide Ids, Driven;
    SameProcessorHere(cs, w);
    KeepsIsBooted(cs, w);
    SixFits();
  }

  lemma TailFits(cs: Classes, t: Type, b: Start)
    requires GoodStart(cs, t, b)
    ensures Fits(b.tail, t)
  {}

  lemma EmptyFits()
    ensures Fits(Vector([]), VectorT(UInt32T))
  {}

  lemma SixFits()
    ensures InSigned(6, 4) && InSigned(0, 4) && 1 < Pow256(4)
  {}

  lemma FirstGood(cs: Classes, t: Type, b: Start, i: nat)
    requires cs.Valid() && cs.members[cs.globals] == GlobalsType(t) && GoodStart(cs, t, b) && 1 <= i <= 5
    ensures var w := PrepareToMapgen(cs, b);
      i < |w.table| && w.table[i].Some? && GoodObject(cs, w, i, w.table[i].value)
  {
    hide PrepareToMapgen, ProcessorMember, FirstGlobals, GlobalsType, InSigned;
    FirstTable(cs, b);
    GlobalsFit(b.tail, t, 5);
    SixFits();
    assert IdSet(Vector([])) == {};
    assert Fits(Vector([]), VectorT(UInt32T)) by { EmptyFits(); }
    hide Fits, IdSet;
  }

  lemma SameProcessorHere(cs: Classes, w: World)
    requires At(w, w.globals).Some? && At(w, w.globals).value.kind == cs.globals && w.globals > 0
    requires var p := ProcessorMember(At(w, w.globals).value.members);
      p > 0 && At(w, p).Some? && At(w, p).value.kind == cs.processor
    ensures GetProcessor(cs, w) == Some(ProcessorMember(At(w, w.globals).value.members))
  {
    hide ProcessorMember;
  }
}
