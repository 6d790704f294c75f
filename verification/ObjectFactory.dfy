/** The factory's table as it is changed in place (sources/core/ObjectFactory.cpp), and saving and loading over it
    (sources/core/WorldLoaderSaver.cpp:27-99), against the model of both.
 */
module ObjectFactory {
  import opened Options
  import opened SerialFormat
  import opened WorldFormat
  import WorldRuns
  import WorldHash
  import FastSerializer

  class Factory {
    const classes: Classes
    var table: seq<Option<Obj>>
    var id: nat
    /** The game's pointer to its globals. */
    var globals: nat
    var idsToDelete: seq<Obj>

    ghost function View(): World
      reads this
    {
      World(table, id, globals)
    }

    constructor (cs: Classes)
      ensures classes == cs && View() == World(seq(100, _ => None), 1, 0) && idsToDelete == []
    {
      classes := cs;
      table := seq(100, _ => None);
      id := 1;
      globals := 0;
      idsToDelete := [];
    }

    /** A new object at the next id. Its constructor gives the members; SetFreq then finds no frequency. */
    method CreateImpl(kind: Name, members: Value, fires: nat) returns (made: nat)
      requires id > 0
      modifies this
      ensures View() == WorldRuns.CreateImpl(old(View()), kind, members, fires) && idsToDelete == old(idsToDelete)
      ensures made == old(id) && made < |table| && table[made] == Some(Obj(kind, made, 0, members, {}, fires))
    {
      if id >= |table| {
        table := table + seq(2 * id - |table|, _ => None);
      }
      table := table[id := Some(Obj(kind, id, 0, members, {}, fires))];
      made := id;
      id := id + 1;
    }

    method CreateVoid(kind: Name, newId: nat) returns (ok: bool)
      modifies this
      ensures ok == WorldFormat.CreateVoid(classes, old(View()), kind, newId).Some?
      ensures ok ==> View() == WorldFormat.CreateVoid(classes, old(View()), kind, newId).value
      ensures ok ==> newId < |table| && table[newId].Some? && table[newId].value.kind == kind && table[newId].value.id == newId
      ensures ok ==> kind in classes.members && newId < id && id >= old(id)
    {
      if kind !in classes.members { return false; }
      if newId >= |table| {
        table := table + seq(2 * newId - |table|, _ => None);
      }
      if newId >= |table| { return false; }
      if newId >= id {
        id := newId + 1;
      }
      table := table[newId := Some(Void(classes, kind, newId))];
      return true;
    }

    method SetFreq(item: nat, freq: int) returns (ok: bool)
      requires item < |table| && table[item].Some?
      modifies this
      ensures ok == WorldFormat.SetFreq(classes, old(View()), item, freq).Some?
      ensures ok ==> View() == WorldFormat.SetFreq(classes, old(View()), item, freq).value
      ensures ok ==> |table| == |old(table)| && table[item].Some? && table[item].value.freq == freq
    {
      hide ProcessorMember;
      table := table[item := Some(table[item].value.(freq := freq))];
      if freq != 0 {
        var p := GetProcessor(classes, World(table, id, globals));
        if p.None? { return false; }
        table := table[p.value := Some(AddTo(table[p.value].value, item))];
      }
      return true;
    }

    method DeleteLater(item: nat)
      requires item < |table| && table[item].Some?
      modifies this
      ensures View() == WorldRuns.DeleteLater(old(View()), item) && table == old(table)[item := None]
      ensures idsToDelete == old(idsToDelete) + [old(table)[item].value]
    {
      idsToDelete := idsToDelete + [table[item].value];
      table := table[item := None];
    }

    method ProcessDeletion()
      modifies this
      ensures View() == old(View()) && idsToDelete == []
    {
      idsToDelete := [];
    }

    // ----- saving

    method SaveObject(o: Obj, serializer: FastSerializer.Serializer)
      requires serializer.Valid()
      modifies serializer, serializer.data
      ensures serializer.Valid() && serializer.Written() == old(serializer.Written()) + WorldFormat.SaveObject(o)
      ensures serializer.data == old(serializer.data) || fresh(serializer.data)
    {
      hide EncodeText, EncodeInt32, EncodeUInt32, Encode;
      assert Encode(UInt32(o.id)) == EncodeUInt32(o.id) && Encode(Int32(o.freq)) == EncodeInt32(o.freq) by { Numbers(o.id, o.freq); }
      serializer.WriteText(TYPE_TYPE, o.kind);
      serializer.Write(UInt32(o.id));
      serializer.Write(Int32(o.freq));
      serializer.Write(o.members);
    }

    method Save(serializer: FastSerializer.Serializer)
      requires serializer.Valid()
      modifies serializer, serializer.data
      ensures serializer.Valid() && serializer.Written() == old(serializer.Written()) + WorldFormat.Save(View())
    {
      hide EncodeText, EncodeInt32, EncodeUInt32, Encode, WorldFormat.SaveObject, SaveFrom, END_TYPE;
      ghost var was := serializer.Written();
      Numbers(globals, id);
      serializer.Write(Int32(id));
      serializer.Write(UInt32(globals));
      ghost var header := SaveHeader(View());
      var i := 1;
      while i < |table|
        invariant serializer.Valid() && (serializer.data == old(serializer.data) || fresh(serializer.data))
        invariant serializer.Written() + SaveFrom(View(), i) == was + header + SaveFrom(View(), 1)
      {
        SaveNext(View(), i);
        if table[i].Some? {
          SaveObject(table[i].value, serializer);
        }
        i := i + 1;
      }
      SaveEnds(View(), i);
      serializer.WriteText(TYPE_TYPE, END_TYPE);
    }

    // ----- loading

    method LoadObject(item: nat, d: FastSerializer.Deserializer) returns (ok: bool)
      requires d.Valid() && item < |table| && table[item].Some? && table[item].value.kind in classes.members
      modifies this, d
      ensures d.Valid()
      ensures var spec := WorldFormat.LoadObject(classes, old(View()), item, old(d.Rest()));
        ok == spec.Some? && (ok ==> spec == Some((View(), d.Rest())))
    {
      hide ReadInt32, Decode, WorldFormat.SetFreq;
      var kind := table[item].value.kind;
      var freq := d.ReadInt();
      if freq.None? { return false; }
      ok := SetFreq(item, freq.value);
      if !ok { return false; }
      SetFreqKeepsTable(classes, old(View()), item, freq.value);
      var m := d.Read(classes.members[kind]);
      if m.None? { return false; }
      table := table[item := Some(SetMembers(classes, table[item].value, m.value))];
      return true;
    }

    method Load(d: FastSerializer.Deserializer) returns (ok: bool)
      requires d.Valid() && forall i :: 0 <= i < |table| ==> table[i].None?
      modifies this, d
      ensures ok == WorldFormat.Load(classes, old(d.Rest())).Some?
      ensures ok ==> View() == WorldFormat.Load(classes, old(d.Rest())).value
    {
      hide ReadInt32, ReadLow, ReadText, WorldFormat.CreateVoid, WorldFormat.LoadObject, END_TYPE;
      idsToDelete := [];
      id := 1;
      var header := d.ReadInt();
      if header.None? || header.value < -1 { return false; }
      id := header.value % WORD;
      var g := d.ReadLowBytes(UINT32_TYPE, 4);
      if g.None? { return false; }
      globals := g.value;
      table := seq(header.value + 1, _ => None);
      ghost var spec := LoadObjects(classes, View(), d.Rest());
      while !d.IsEnd()
        invariant d.Valid() && LoadObjects(classes, View(), d.Rest()) == spec
        decreases |d.Rest()|
      {
        ghost var s, w := d.Rest(), View();
        var kind := d.ReadString(TYPE_TYPE);
        if kind.None? { return false; }
        if kind.value == END_TYPE { return true; }
        var newId := d.ReadLowBytes(UINT32_TYPE, 4);
        if newId.None? { return false; }
        ok := CreateVoid(kind.value, newId.value);
        if !ok { return false; }
        CreatedIsThere(classes, w, kind.value, newId.value);
        ghost var v, rest := View(), d.Rest();
        ok := LoadObject(newId.value, d);
        if !ok { return false; }
        LoadUses(classes, v, newId.value, rest);
        TextUses(TYPE_TYPE, s);
        LowUses(UINT32_TYPE, 4, ReadText(TYPE_TYPE, s).rest);
      }
      return true;
    }

    // ----- the hash

    method Hash(digest: (Name, Value) -> nat) returns (h: nat)
      requires |table| > 0 && table[0].None?
      ensures h == WorldHash.Hash(digest, View())
    {
      h := WorldHash.HashTable(digest, World(table, id, globals));
    }
  }

  lemma Numbers(u: nat, n: int)
    ensures Encode(UInt32(u)) == EncodeUInt32(u) && Encode(Int32(n)) == EncodeInt32(n)
  {}

  lemma SaveNext(w: World, i: nat)
    requires i < |w.table|
    ensures SaveFrom(w, i) == (if w.table[i].Some? then SaveObject(w.table[i].value) else []) + SaveFrom(w, i + 1)
  {}

  lemma SaveEnds(w: World, i: nat)
    requires i >= |w.table|
    ensures SaveFrom(w, i) == EncodeText(TYPE_TYPE, END_TYPE)
  {}

  lemma SetFreqKeepsTable(cs: Classes, w: World, id: nat, freq: int)
    requires id < |w.table| && w.table[id].Some?
    ensures var v := WorldFormat.SetFreq(cs, w, id, freq);
      v.Some? ==> id < |v.value.table| && v.value.table[id].Some? && v.value.table[id].value.kind == w.table[id].value.kind
  {
    hide ProcessorMember;
  }

  lemma CreatedIsThere(cs: Classes, w: World, kind: Name, id: nat)
    ensures var v := WorldFormat.CreateVoid(cs, w, kind, id);
      v.Some? ==> id < |v.value.table| && v.value.table[id].Some? && v.value.table[id].value.kind == kind && kind in cs.members
  {}

  lemma TextUses(tag: Byte, s: seq<Byte>)
    ensures ReadText(tag, s).Read? ==> |ReadText(tag, s).rest| < |s|
  {
    hide FromBytes, DecodeUnits, Signed;
  }

  lemma LowUses(tag: Byte, k: nat, s: seq<Byte>)
    ensures ReadLow(tag, k, s).Read? ==> |ReadLow(tag, k, s).rest| < |s|
  {
    hide FromBytes;
  }
}
