/** A save loads back: the same live objects with the same members, counter, globals and processor list, and
    the same hash unless something burns.
 */
module WorldTheorems {
  import opened Options
  import opened SerialFormat
  import opened SerialTheorems
  import opened WorldFormat

  /** What the factory and the processor keep true of one live object. */
  ghost predicate GoodObject(cs: Classes, w: World, i: nat, o: Obj) {
    && o.id == i && 1 <= i < w.id && o.kind in cs.members && Fits(o.members, cs.members[o.kind]) && InSigned(o.freq, 4)
    && o.lookup == (if o.kind == cs.processor then IdSet(o.members) else {})
  }

  /** Something with a frequency is in the list of the processor that the globals point to. */
  ghost predicate Registered(cs: Classes, w: World, i: nat) {
    GetProcessor(cs, w).Some? && i in Ids(At(w, GetProcessor(cs, w).value).value.members)
  }

  ghost predicate WellFormed(cs: Classes, w: World) {
    && cs.Valid() && 1 <= w.id && InSigned(w.id, 4) && w.globals < Pow256(4)
    && |w.table| >= 1 && w.table[0].None?
    && forall i: nat :: i < |w.table| && w.table[i].Some? ==>
      GoodObject(cs, w, i, w.table[i].value) && (w.table[i].value.freq != 0 ==> Registered(cs, w, i))
  }

  /** When object `i` is loaded the globals are already there, and so is the processor, unless `i` is it. */
  predicate InOrderAt(cs: Classes, w: World, i: nat) {
    At(w, i).Some? && At(w, i).value.freq != 0 ==>
      w.globals < i && GetProcessor(cs, w).Some? && GetProcessor(cs, w).value <= i
  }

  function Doused(o: Option<Obj>): Option<Obj> {
    if o.None? then None else Some(o.value.(fires := 0))
  }

  /** The objects below `i` in a table of the size that Load makes. */
  function Loaded(w: World, i: nat): World {
    World(seq(w.id + 1, k requires 0 <= k => if k < i then Doused(At(w, k)) else None), w.id, w.globals)
  }

  /** The world without fires, in a table that ends at the counter. */
  function Restored(w: World): World {
    World(seq(w.id + 1, k requires 0 <= k => Doused(At(w, k))), w.id, w.globals)
  }

  // ----- one object

  /** The table when object `i` has been made and its frequency set. */
  lemma MakeOne(cs: Classes, w: World, i: nat)
    requires WellFormed(cs, w) && i < |w.table| && w.table[i].Some?
    ensures var o, l := w.table[i].value, Loaded(w, i);
      && i < |l.table|
      && CreateVoid(cs, l, o.kind, i) == Some(l.(table := l.table[i := Some(Void(cs, o.kind, i))]))
  {
    hide Fits;
    assert GoodObject(cs, w, i, w.table[i].value);
  }

  lemma AddIdle(o: Obj, id: nat)
    requires id in o.lookup
    ensures AddTo(o, id) == o
  {}

  /** Which processor is found while `i` is loaded. */
  lemma ProcessorFound(cs: Classes, w: World, i: nat, v: World)
    requires WellFormed(cs, w) && i < |w.table| && w.table[i].Some? && w.table[i].value.freq != 0 && i <= w.id
    requires v == Loaded(w, i).(table := Loaded(w, i).table[i := Some(Void(cs, w.table[i].value.kind, i).(freq := w.table[i].value.freq))])
    ensures InOrderAt(cs, w, i) ==> GetProcessor(cs, v) == GetProcessor(cs, w)
    ensures !InOrderAt(cs, w, i) ==> GetProcessor(cs, v) == None
  {
    hide Fits, Ids;
    assert GoodObject(cs, w, i, w.table[i].value) && Registered(cs, w, i);
    var p := GetProcessor(cs, w).value;
    assert GoodObject(cs, w, p, w.table[p].value);
  }

  /** Loading object `i` after those below it. */
  lemma LoadOne(cs: Classes, w: World, i: nat, rest: seq<Byte>)
    requires WellFormed(cs, w) && i < |w.table| && w.table[i].Some?
    ensures var o, l := w.table[i].value, Loaded(w, i);
      i < |l.table| &&
      LoadObject(cs, l.(table := l.table[i := Some(Void(cs, o.kind, i))]), i, EncodeInt32(o.freq) + (Encode(o.members) + rest)) ==
        if InOrderAt(cs, w, i) then Some((Loaded(w, i + 1), rest)) else None
  {
    hide Fits, Ids, Encode, EncodeInt32, Decode, ReadInt32, InSigned, GetProcessor, SetFreq, InOrderAt, Registered, Restored;
    var o, l := w.table[i].value, Loaded(w, i);
    assert GoodObject(cs, w, i, o);
    Int32Back(o.freq, Encode(o.members) + rest);
    RoundTrip(o.members, cs.members[o.kind], rest);
    var v := l.(table := l.table[i := Some(Void(cs, o.kind, i).(freq := o.freq))]);
    if o.freq != 0 {
      ProcessorFound(cs, w, i, v);
    }
    SetOne(cs, w, i, v);
    SetFails(cs, w, i, v);
  }

  lemma SetFails(cs: Classes, w: World, i: nat, v: World)
    requires i < |w.table| && w.table[i].Some? && i <= w.id
    requires v == Loaded(w, i).(table := Loaded(w, i).table[i := Some(Void(cs, w.table[i].value.kind, i).(freq := w.table[i].value.freq))])
    requires w.table[i].value.freq != 0 ==> (!InOrderAt(cs, w, i) ==> GetProcessor(cs, v) == None)
    ensures !InOrderAt(cs, w, i) ==>
      var o, l := w.table[i].value, Loaded(w, i);
      SetFreq(cs, l.(table := l.table[i := Some(Void(cs, o.kind, i))]), i, o.freq) == None
  {
    hide GetProcessor;
    var o, l := w.table[i].value, Loaded(w, i);
    var made := l.(table := l.table[i := Some(Void(cs, o.kind, i))]);
    assert made.table[i := Some(made.table[i].value.(freq := o.freq))] == v.table;
  }

  /** The table after frequency and members of `i` are set. */
  lemma SetOne(cs: Classes, w: World, i: nat, v: World)
    requires WellFormed(cs, w) && i < |w.table| && w.table[i].Some? && i < w.id
    requires v == Loaded(w, i).(table := Loaded(w, i).table[i := Some(Void(cs, w.table[i].value.kind, i).(freq := w.table[i].value.freq))])
    requires w.table[i].value.freq != 0 ==> (InOrderAt(cs, w, i) ==> GetProcessor(cs, v) == GetProcessor(cs, w))
    ensures InOrderAt(cs, w, i) ==>
      var o, l := w.table[i].value, Loaded(w, i);
      var u := SetFreq(cs, l.(table := l.table[i := Some(Void(cs, o.kind, i))]), i, o.freq);
      u.Some? && i < |u.value.table| && u.value.table[i].Some? &&
      u.value.(table := u.value.table[i := Some(SetMembers(cs, u.value.table[i].value, o.members))]) == Loaded(w, i + 1)
  {
    if InOrderAt(cs, w, i) {
      var o, l := w.table[i].value, Loaded(w, i);
      var made := l.(table := l.table[i := Some(Void(cs, o.kind, i))]);
      hide Fits, GetProcessor, Ids;
      assert GoodObject(cs, w, i, o);
      assert made.table[i := Some(made.table[i].value.(freq := o.freq))] == v.table;
      assert Loaded(w, i + 1).table == l.table[i := Doused(w.table[i])];
      if o.freq != 0 {
        assert Registered(cs, w, i);
        ProcessorIs(cs, w);
        ProcessorIs(cs, v);
        var p := GetProcessor(cs, w).value;
        assert GoodObject(cs, w, p, w.table[p].value);
        if p < i {
          assert v.table[p] == Doused(w.table[p]);
          AddIdle(v.table[p].value, i);
          assert v.table[p := v.table[p]] == v.table;
        } else {
          AddToVoid(v.table[i].value, i);
          assert {i} + IdSet(o.members) == IdSet(o.members);
        }
      }
      assert {} + IdSet(o.members) == IdSet(o.members);
    }
  }

  lemma AddToVoid(o: Obj, id: nat)
    requires o.lookup == {} && o.members == Vector([])
    ensures AddTo(o, id) == o.(lookup := {id}, members := Vector([UInt32(id)]))
  {
    assert [] + [UInt32(id)] == [UInt32(id)];
  }

  lemma ProcessorIs(cs: Classes, w: World)
    ensures var p := GetProcessor(cs, w); p.Some? ==>
      p.value < |w.table| && w.table[p.value].Some? && w.table[p.value].value.kind == cs.processor
  {}

  // ----- the whole world

  /** Loading from object `i` on: the rest of the world, or an abort at the first object out of order. */
  lemma {:induction false} LoadRest(cs: Classes, w: World, i: nat, more: seq<Byte>)
    requires WellFormed(cs, w) && 1 <= i
    ensures LoadObjects(cs, Loaded(w, i), SaveFrom(w, i) + more) ==
      if forall j: nat :: i <= j ==> InOrderAt(cs, w, j) then Some(Restored(w)) else None
    decreases |w.table| - i
  {
    hide WellFormed, InOrderAt, LoadObjects, SaveObject, Loaded, Restored, EncodeText, END_TYPE;
    if i >= |w.table| {
      EndRead(cs, Loaded(w, i), more);
      AllLoaded(w, i);
      forall j: nat | i <= j ensures InOrderAt(cs, w, j) { NothingThere(cs, w, j); }
    } else if w.table[i].None? {
      NothingThere(cs, w, i);
      NoneLoaded(w, i);
      LoadRest(cs, w, i + 1, more);
      assert SaveFrom(w, i) == SaveFrom(w, i + 1);
      OneFewer(cs, w, i);
    } else {
      var o, rest := w.table[i].value, SaveFrom(w, i + 1) + more;
      LoadRest(cs, w, i + 1, more);
      OneFewer(cs, w, i);
      assert SaveFrom(w, i) + more == SaveObject(o) + rest;
      LoadStep(cs, w, i, rest);
    }
  }

  lemma AllLoaded(w: World, i: nat)
    requires i >= |w.table|
    ensures Loaded(w, i) == Restored(w)
  {
    assert Loaded(w, i).table == Restored(w).table;
  }

  lemma NoneLoaded(w: World, i: nat)
    requires At(w, i).None?
    ensures Loaded(w, i + 1) == Loaded(w, i)
  {
    assert Loaded(w, i + 1).table == Loaded(w, i).table;
  }

  lemma NothingThere(cs: Classes, w: World, i: nat)
    requires At(w, i).None?
    ensures InOrderAt(cs, w, i)
  {}

  lemma OneFewer(cs: Classes, w: World, i: nat)
    ensures (forall j: nat :: i <= j ==> InOrderAt(cs, w, j)) <==>
            InOrderAt(cs, w, i) && forall j: nat :: i + 1 <= j ==> InOrderAt(cs, w, j)
  {
    hide InOrderAt;
  }

  lemma EndRead(cs: Classes, w: World, more: seq<Byte>)
    ensures LoadObjects(cs, w, EncodeText(TYPE_TYPE, END_TYPE) + more) == Some(w)
  {
    TextBack(TYPE_TYPE, END_TYPE, more);
    hide ReadText, CreateVoid, LoadObject, EncodeUnits;
    assert EncodeText(TYPE_TYPE, END_TYPE) != [];
  }

  /** One turn of the loop. */
  lemma LoadStep(cs: Classes, w: World, i: nat, rest: seq<Byte>)
    requires WellFormed(cs, w) && i < |w.table| && w.table[i].Some?
    ensures LoadObjects(cs, Loaded(w, i), SaveObject(w.table[i].value) + rest) ==
      if InOrderAt(cs, w, i) then LoadObjects(cs, Loaded(w, i + 1), rest) else None
  {
    hide WellFormed, InOrderAt, CreateVoid, LoadObject, LoadObjects, EncodeText, EncodeUInt32, EncodeInt32, Encode, ReadText, ReadLow, Loaded, Void, Pow256, InSigned, END_TYPE;
    var o := w.table[i].value;
    ObjectParts(cs, w, i);
    MakeOne(cs, w, i);
    LoadOne(cs, w, i, rest);
    var later := EncodeInt32(o.freq) + (Encode(o.members) + rest);
    var s := SaveObject(o) + rest;
    assert s == EncodeText(TYPE_TYPE, o.kind) + (EncodeUInt32(o.id) + later);
    TextBack(TYPE_TYPE, o.kind, EncodeUInt32(o.id) + later);
    UInt32Back(o.id, later);
    TextNotEmpty(TYPE_TYPE, o.kind);
    OneTurn(cs, Loaded(w, i), s, o.kind, EncodeUInt32(o.id) + later, o.id, later);
  }

  lemma OneTurn(cs: Classes, w: World, s: seq<Byte>, kind: Name, afterKind: seq<Byte>, id: nat, afterId: seq<Byte>)
    requires s != [] && ReadText(TYPE_TYPE, s) == Read(kind, afterKind) && kind != END_TYPE
    requires ReadLow(UINT32_TYPE, 4, afterKind) == Read(id, afterId) && CreateVoid(cs, w, kind, id).Some?
    ensures var v := CreateVoid(cs, w, kind, id).value;
      && id < |v.table| && v.table[id].Some? && v.table[id].value.kind in cs.members
      && LoadObjects(cs, w, s) ==
        var l := LoadObject(cs, v, id, afterId);
        if l.None? then None else LoadObjects(cs, l.value.0, l.value.1)
  {
    LoadUses(cs, CreateVoid(cs, w, kind, id).value, id, afterId);
    hide LoadObject, ReadText, ReadLow, END_TYPE;
  }

  lemma TextNotEmpty(tag: Byte, s: seq<Unit>)
    ensures EncodeText(tag, s) != []
  {}

  lemma ObjectParts(cs: Classes, w: World, i: nat)
    requires WellFormed(cs, w) && i < |w.table| && w.table[i].Some?
    ensures var o := w.table[i].value;
      o.id == i && o.id < Pow256(4) && InSigned(|o.kind|, 4) && o.kind != END_TYPE && o.kind in cs.members
  {
    hide Fits, Registered;
    assert GoodObject(cs, w, i, w.table[i].value);
  }

  /** A save, whatever follows it, loads into the world it was made from, exactly when every object with a frequency
      comes after the globals and not before the processor; otherwise the load aborts. */
  lemma LoadRestores(cs: Classes, w: World, more: seq<Byte>)
    requires WellFormed(cs, w)
    ensures Load(cs, Save(w) + more) == if forall i: nat :: InOrderAt(cs, w, i) then Some(Restored(w)) else None
  {
    hide WellFormed, SaveFrom, EncodeInt32, EncodeUInt32, InOrderAt, LoadObjects, Load, Loaded, Restored, At;
    HeaderFits(cs, w);
    assert Save(w) + more == EncodeInt32(w.id) + (EncodeUInt32(w.globals) + (SaveFrom(w, 1) + more));
    LoadHeader(cs, w, SaveFrom(w, 1) + more);
    LoadRest(cs, w, 1, more);
    NothingThere(cs, w, 0);
    OneFewer(cs, w, 0);
  }

  lemma HeaderFits(cs: Classes, w: World)
    requires WellFormed(cs, w)
    ensures InSigned(w.id, 4) && w.globals < Pow256(4) && |w.table| > 0 && w.table[0].None? && At(w, 0).None?
  {
    hide GoodObject, Registered;
  }

  lemma LoadHeader(cs: Classes, w: World, rest: seq<Byte>)
    requires InSigned(w.id, 4) && w.globals < Pow256(4) && At(w, 0).None?
    ensures Load(cs, EncodeInt32(w.id) + (EncodeUInt32(w.globals) + rest)) == LoadObjects(cs, Loaded(w, 1), rest)
  {
    hide LoadObjects, EncodeInt32, EncodeUInt32, ReadInt32, ReadLow;
    Int32Back(w.id, EncodeUInt32(w.globals) + rest);
    UInt32Back(w.globals, rest);
    WordIs(w.id);
    assert Loaded(w, 1).table == seq(w.id + 1, _ => None);
  }

  lemma WordIs(id: nat)
    requires InSigned(id, 4)
    ensures id % WORD == id
  {}

  // ----- a world that does not load

  const GLOBALS: Name := [71]
  const PROCESSOR: Name := [80]
  const OTHER: Name := [79]
  const TINY := Classes(map[GLOBALS := GlobalsType(BoolT), PROCESSOR := VectorT(UInt32T), OTHER := BoolT], GLOBALS, PROCESSOR)

  lemma TinyTypes()
    ensures GLOBALS in TINY.members && TINY.members[GLOBALS] == GlobalsType(BoolT)
    ensures PROCESSOR in TINY.members && TINY.members[PROCESSOR] == VectorT(UInt32T)
    ensures OTHER in TINY.members && TINY.members[OTHER] == BoolT
    ensures TINY.globals == GLOBALS && TINY.processor == PROCESSOR && OTHER != PROCESSOR && GLOBALS != PROCESSOR
  {}

  lemma FourBytes()
    ensures Pow256(4) == 0x1_0000_0000 && Pow256(3) == 0x100_0000
  {}

  lemma TinyIsValid()
    ensures TINY.Valid()
  {
    FourBytes();
    TinyTypes();
  }

  function Pointers(): Value {
    Pair(Int32(0), Pair(UInt32(0), Pair(UInt32(0), Pair(UInt32(0), Pair(UInt32(0), Pair(UInt32(0), Pair(UInt32(3), Bool(false))))))))
  }

  lemma FitsPair(a: Value, b: Value, s: Type, t: Type)
    requires Fits(a, s) && Fits(b, t)
    ensures Fits(Pair(a, b), PairT(s, t))
  {}

  lemma FitsWord(u: nat, b: Value, t: Type)
    requires u < Pow256(4) && Fits(b, t)
    ensures Fits(Pair(UInt32(u), b), PairT(UInt32T, t))
  {
    hide Pow256;
  }

  lemma PointersFit()
    ensures Fits(Pointers(), GlobalsType(BoolT))
  {
    FourBytes();
    var b0 := Pair(UInt32(3), Bool(false));
    var t0 := PairT(UInt32T, BoolT);
    var b1, t1 := Pair(UInt32(0), b0), PairT(UInt32T, t0);
    var b2, t2 := Pair(UInt32(0), b1), PairT(UInt32T, t1);
    var b3, t3 := Pair(UInt32(0), b2), PairT(UInt32T, t2);
    var b4, t4 := Pair(UInt32(0), b3), PairT(UInt32T, t3);
    var b5, t5 := Pair(UInt32(0), b4), PairT(UInt32T, t4);
    assert Fits(Bool(false), BoolT) && Fits(Int32(0), Int32T);
    hide Fits, Pow256;
    FitsWord(3, Bool(false), BoolT);
    FitsWord(0, b0, t0);
    FitsWord(0, b1, t1);
    FitsWord(0, b2, t2);
    FitsWord(0, b3, t3);
    FitsWord(0, b4, t4);
    FitsPair(Int32(0), b5, Int32T, t5);
  }

  lemma ListFits()
    ensures Fits(Vector([UInt32(1)]), VectorT(UInt32T)) && Fits(Bool(false), BoolT) && Ids(Vector([UInt32(1)])) == [1]
    ensures InSigned(1, 4) && InSigned(0, 4) && InSigned(4, 4)
  {
    FourBytes();
  }

  /** Object 1 has a frequency, the globals are object 2 and the processor is object 3. */
  function TooEarly(): World {
    World([None, Some(Obj(OTHER, 1, 1, Bool(false), {}, 0)), Some(Obj(GLOBALS, 2, 0, Pointers(), {}, 0)),
           Some(Obj(PROCESSOR, 3, 0, Vector([UInt32(1)]), {1}, 0))], 4, 2)
  }

  lemma TooEarlyIsWellFormed()
    ensures WellFormed(TINY, TooEarly())
  {
    TinyIsValid();
    TinyTypes();
    FourBytes();
    PointersFit();
    ListFits();
    var w := TooEarly();
    hide Fits, Classes.Valid, Pow256, InSigned, Ids, TINY, GlobalsType;
    assert GetProcessor(TINY, w) == Some(3);
    assert Registered(TINY, w, 1);
    hide Registered, GetProcessor, Pointers;
    assert GoodObject(TINY, w, 1, w.table[1].value) && GoodObject(TINY, w, 2, w.table[2].value) && GoodObject(TINY, w, 3, w.table[3].value);
  }

  /** It is a world like any other, and its save aborts the program that loads it. */
  lemma TooEarlyAborts(more: seq<Byte>)
    ensures WellFormed(TINY, TooEarly()) && Load(TINY, Save(TooEarly()) + more) == None
  {
    hide WellFormed, Load, Save, GetProcessor;
    TooEarlyIsWellFormed();
    LoadRestores(TINY, TooEarly(), more);
    assert !InOrderAt(TINY, TooEarly(), 1);
  }
}
