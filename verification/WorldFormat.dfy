/** Saving and loading a world (sources/core/WorldLoaderSaver.cpp:27-99): the object table, the id counter, the
    objects (objects/Object.cpp:27-53), and the hash clients compare.
 */
module WorldFormat {
  import opened Options
  import opened SerialFormat
  import SerialTheorems

  type Name = seq<Unit>

  /** `0~$`. */
  const END_TYPE: Name := [48, 126, 36]
  const WORD := 0x1_0000_0000

  /** An object: what Save writes of it, the lookup set of the processor, and its burning atmos holders, which are
      hashed and not saved. */
  datatype Obj = Obj(kind: Name, id: nat, freq: int, members: Value, lookup: set<nat>, fires: nat)

  /** The factory's table and counter, and the id of the globals. */
  datatype World = World(table: seq<Option<Obj>>, id: nat, globals: nat)

  /** The classes a program knows: the saved members of each, and the two that loading itself uses. */
  datatype Classes = Classes(members: map<Name, Type>, globals: Name, processor: Name) {
    /** The globals start with the tick and six pointers, the processor last; the processor's member is its list. */
    ghost predicate Valid() {
      && globals in members && processor in members && globals != processor && END_TYPE !in members
      && members[processor] == VectorT(UInt32T)
      && (exists t :: members[globals] == GlobalsType(t))
      && forall k :: k in members ==> InSigned(|k|, 4)
    }
  }

  function GlobalsType(rest: Type): Type {
    PairT(Int32T, PairT(UInt32T, PairT(UInt32T, PairT(UInt32T, PairT(UInt32T, PairT(UInt32T, PairT(UInt32T, rest)))))))
  }

  /** The processor's id among the members of the globals. */
  function ProcessorMember(v: Value): nat {
    match v
    case Pair(_, Pair(_, Pair(_, Pair(_, Pair(_, Pair(_, Pair(UInt32(p), _))))))) => p
    case _ => 0
  }

  function Ids(v: Value): seq<nat> {
    if v.Vector? then seq(|v.values|, i requires 0 <= i < |v.values| => if v.values[i].UInt32? then v.values[i].u else 0) else []
  }

  function IdSet(v: Value): set<nat> {
    set i | i in Ids(v)
  }

  /** The object at an id. */
  function At(w: World, i: nat): Option<Obj> {
    if i < |w.table| then w.table[i] else None
  }

  // ----- saving

  function SaveObject(o: Obj): seq<Byte> {
    EncodeText(TYPE_TYPE, o.kind) + (EncodeUInt32(o.id) + (EncodeInt32(o.freq) + Encode(o.members)))
  }

  /** The objects from id `i` on, and the end mark. */
  function SaveFrom(w: World, i: nat): seq<Byte>
    decreases |w.table| - i
  {
    if i >= |w.table| then EncodeText(TYPE_TYPE, END_TYPE)
    else (if w.table[i].Some? then SaveObject(w.table[i].value) else []) + SaveFrom(w, i + 1)
  }

  function SaveHeader(w: World): seq<Byte> {
    EncodeInt32(w.id) + EncodeUInt32(w.globals)
  }

  function Save(w: World): seq<Byte> {
    SaveHeader(w) + SaveFrom(w, 1)
  }

  // ----- loading

  /** An object just made: no frequency, empty containers, null pointers. */
  function Void(cs: Classes, kind: Name, id: nat): Obj {
    Obj(kind, id, 0, if kind == cs.processor then Vector([]) else Bool(false), {}, 0)
  }

  /** ObjectFactory::CreateVoid. */
  function CreateVoid(cs: Classes, w: World, kind: Name, id: nat): (r: Option<World>)
    ensures r.Some? ==> id < |r.value.table| && r.value.globals == w.globals
  {
    var table := if id >= |w.table| then w.table + seq(2 * id - |w.table|, _ => None) else w.table;
    if kind !in cs.members || id >= |table| then None
    else Some(World(table[id := Some(Void(cs, kind, id))], if id >= w.id then id + 1 else w.id, w.globals))
  }

  /** The processor that the globals point to. */
  function GetProcessor(cs: Classes, w: World): Option<nat> {
    var g := At(w, w.globals);
    if w.globals == 0 || g.None? || g.value.kind != cs.globals then None
    else
      var p := ProcessorMember(g.value.members);
      if p == 0 || At(w, p).None? || At(w, p).value.kind != cs.processor then None else Some(p)
  }

  /** ObjectProcessor::Add on the processor object. */
  function AddTo(o: Obj, id: nat): Obj {
    if id in o.lookup || !o.members.Vector? then o
    else o.(lookup := o.lookup + {id}, members := Vector(o.members.values + [UInt32(id)]))
  }

  /** Object::SetFreq. */
  function SetFreq(cs: Classes, w: World, id: nat, freq: int): Option<World>
    requires id < |w.table| && w.table[id].Some?
  {
    var v := w.(table := w.table[id := Some(w.table[id].value.(freq := freq))]);
    if freq == 0 then Some(v)
    else
      var p := GetProcessor(cs, v);
      if p.None? then None
      else Some(v.(table := v.table[p.value := Some(AddTo(v.table[p.value].value, id))]))
  }

  /** The saved members, and what the class does when they are loaded: the processor fills its lookup set. */
  function SetMembers(cs: Classes, o: Obj, members: Value): Obj {
    var lookup := if o.kind == cs.processor then o.lookup + IdSet(members) else o.lookup;
    o.(members := members, lookup := lookup)
  }

  /** Object::Load for the object `id`. */
  function LoadObject(cs: Classes, w: World, id: nat, s: seq<Byte>): Option<(World, seq<Byte>)>
    requires id < |w.table| && w.table[id].Some? && w.table[id].value.kind in cs.members
  {
    var kind := w.table[id].value.kind;
    var freq := ReadInt32(s);
    if freq.Aborted? then None
    else
      var v := SetFreq(cs, w, id, freq.value);
      if v.None? then None
      else
        var m := Decode(cs.members[kind], freq.rest);
        if m.Aborted? then None
        else Some((v.value.(table := v.value.table[id := Some(SetMembers(cs, v.value.table[id].value, m.value))]), m.rest))
  }

  /** The loop of Load: objects until the end mark or the end of the data. */
  function LoadObjects(cs: Classes, w: World, s: seq<Byte>): Option<World>
    decreases |s|
  {
    if s == [] then Some(w)
    else
      var kind := ReadText(TYPE_TYPE, s);
      if kind.Aborted? then None
      else if kind.value == END_TYPE then Some(w)
      else
        var id := ReadLow(UINT32_TYPE, 4, kind.rest);
        if id.Aborted? then None
        else
          var v := CreateVoid(cs, w, kind.value, id.value);
          if v.None? then None
          else
            var l := LoadObject(cs, v.value, id.value, id.rest);
            if l.None? then None
            else
              LoadUses(cs, v.value, id.value, id.rest);
              LoadObjects(cs, l.value.0, l.value.1)
  }

  lemma LoadUses(cs: Classes, w: World, id: nat, s: seq<Byte>)
    requires id < |w.table| && w.table[id].Some? && w.table[id].value.kind in cs.members
    ensures var l := LoadObject(cs, w, id, s); l.Some? ==> |l.value.1| <= |s|
  {
    hide Decode, SetFreq;
    var freq := ReadInt32(s);
    if freq.Read? {
      SerialTheorems.Uses(cs.members[w.table[id].value.kind], freq.rest);
    }
  }

  /** Load into a new factory: its table is null, so clearing it only resets the counter. */
  function Load(cs: Classes, s: seq<Byte>): Option<World> {
    var id := ReadInt32(s);
    if id.Aborted? || id.value < -1 then None
    else
      var g := ReadLow(UINT32_TYPE, 4, id.rest);
      if g.Aborted? then None else LoadObjects(cs, World(seq(id.value + 1, _ => None), id.value % WORD, g.value), g.rest)
  }
}
