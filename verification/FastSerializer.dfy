/** The serializer's buffer and the deserializer's cursor (sources/core/FastSerializer.h), and the stream operators
    over them (SaveableOperators.h), against the format.
 */
module FastSerializer {
  import opened Options
  import opened SerialFormat

  // ----- growing the buffer

  function Doubled(length: nat, k: nat): nat {
    if k == 0 then length else 2 * Doubled(length, k - 1)
  }

  /** Doubling the buffer ends unless it starts empty. */
  lemma {:induction false} PreallocateEndsIff(length: nat, need: nat)
    ensures (exists k: nat :: need <= Doubled(length, k)) <==> length > 0 || need == 0
  {
    if length > 0 {
      DoubledAbove(length, need);
    } else {
      forall k: nat ensures Doubled(0, k) == 0 { DoubledZero(k); }
      if need == 0 { assert need <= Doubled(length, 0); }
    }
  }

  lemma {:induction false} DoubledAbove(length: nat, k: nat)
    requires length > 0
    ensures k < Doubled(length, k)
  {
    if k > 0 { DoubledAbove(length, k - 1); }
  }

  lemma {:induction false} DoubledZero(k: nat)
    ensures Doubled(0, k) == 0
  {
    if k > 0 { DoubledZero(k - 1); }
  }

  // ----- bytes by position

  lemma FourBytes(n: int)
    ensures LowBytes(n, 4) == [n % 256, n / 0x100 % 256, n / 0x1_0000 % 256, n / 0x100_0000 % 256]
  {
    assert n / 256 / 256 == n / 0x1_0000 && n / 0x1_0000 / 256 == n / 0x100_0000;
    assert LowBytes(n, 4) == [n % 256] + LowBytes(n / 256, 3);
    assert LowBytes(n / 256, 3) == [n / 256 % 256] + LowBytes(n / 256 / 256, 2);
    assert LowBytes(n / 0x1_0000, 2) == [n / 0x1_0000 % 256] + LowBytes(n / 0x1_0000 / 256, 1);
  }

  lemma {:induction false} ByteAt(n: int, k: nat, i: nat)
    requires i < k
    ensures LowBytes(n, k)[i] == ShiftBytes(n, i) % 256
    decreases i
  {
    if i > 0 { ByteAt(n / 256, k - 1, i - 1); }
  }

  lemma {:induction false} FromBytesNext(s: seq<Byte>, i: nat)
    requires i < |s|
    ensures FromBytes(s[..i + 1]) == FromBytes(s[..i]) + s[i] * Pow256(i)
  {
    if i > 0 {
      assert s[..i + 1][1..] == s[1..][..i] && s[..i][1..] == s[1..][..i - 1];
      FromBytesNext(s[1..], i - 1);
    }
  }

  lemma {:induction false} UnitsNext(s: seq<Unit>, i: nat)
    requires i < |s|
    ensures EncodeUnits(s[..i + 1]) == EncodeUnits(s[..i]) + [s[i] % 256, s[i] / 256]
  {
    if i > 0 {
      assert s[..i + 1][1..] == s[1..][..i] && s[..i][1..] == s[1..][..i - 1];
      UnitsNext(s[1..], i - 1);
    } else {
      assert s[..1][1..] == [];
    }
  }

  lemma {:induction false} DecodeUnitsNext(s: seq<Byte>, i: nat)
    requires 2 * i + 2 <= |s|
    ensures |DecodeUnits(s[..2 * i])| == i
    ensures DecodeUnits(s[..2 * i + 2]) == DecodeUnits(s[..2 * i]) + [UnitOf(s[2 * i], s[2 * i + 1])]
  {
    if i > 0 {
      assert s[..2 * i + 2][2..] == s[2..][..2 * i] && s[..2 * i][2..] == s[2..][..2 * i - 2];
      DecodeUnitsNext(s[2..], i - 1);
    }
  }

  lemma {:induction false} EncodeAllNext(vs: seq<Value>, i: nat)
    requires i < |vs|
    ensures EncodeAll(vs[..i + 1]) == EncodeAll(vs[..i]) + Encode(vs[i])
  {
    hide Encode;
    if i > 0 {
      assert vs[..i + 1][1..] == vs[1..][..i] && vs[..i][1..] == vs[1..][..i - 1];
      EncodeAllNext(vs[1..], i - 1);
    } else {
      assert vs[..1][1..] == [];
    }
  }

  lemma {:induction false} EncodeEntriesNext(es: seq<Entry>, i: nat)
    requires i < |es|
    ensures EncodeEntries(es[..i + 1]) == EncodeEntries(es[..i]) + EncodeEntry(es[i])
  {
    hide Encode;
    if i > 0 {
      assert es[..i + 1][1..] == es[1..][..i] && es[..i][1..] == es[1..][..i - 1];
      EncodeEntriesNext(es[1..], i - 1);
    } else {
      assert es[..1][1..] == [];
    }
  }

  // ----- writing

  class Serializer {
    var data: array<Byte>
    var index: nat

    ghost predicate Valid()
      reads this
    {
      0 < data.Length && index <= data.Length
    }

    /** What has been written. */
    ghost function Written(): seq<Byte>
      requires Valid()
      reads this, data
    {
      data[..index]
    }

    constructor (size: nat)
      requires size > 0
      ensures Valid() && fresh(data) && Written() == []
    {
      data := new Byte[size](_ => 0);
      index := 0;
    }

    method ResetIndex()
      requires Valid()
      modifies this`index
      ensures Valid() && Written() == []
    {
      index := 0;
    }

    method Resize(size: nat)
      requires Valid() && data.Length <= size
      modifies this`data
      ensures Valid() && fresh(data) && data.Length == size && Written() == old(Written())
    {
      var was := data;
      data := new Byte[size](i requires 0 <= i reads was => if i < was.Length then was[i] else 0);
    }

    /** Make room: the buffer doubles until `size` more bytes fit. */
    method Preallocate(size: nat)
      requires Valid()
      modifies this`data
      ensures Valid() && index + size <= data.Length && Written() == old(Written())
      ensures data == old(data) || fresh(data)
    {
      while index + size > data.Length
        invariant Valid() && Written() == old(Written()) && (data == old(data) || fresh(data))
        decreases index + size - data.Length
      {
        Resize(data.Length * 2);
      }
    }

    /** `data_[at] = b`, for the bytes up to there. */
    method Put(at: nat, b: Byte)
      requires at < data.Length
      modifies data
      ensures data[..at + 1] == old(data[..at]) + [b]
    {
      data[at] := b;
    }

    method WriteBool(value: bool)
      requires Valid()
      modifies this, data
      ensures Valid() && Written() == old(Written()) + Encode(Bool(value))
      ensures data == old(data) || fresh(data)
    {
      Preallocate(2);
      data[index] := BOOL_TYPE;
      data[index + 1] := if value then 1 else 0;
      index := index + 2;
    }

    /** Both 32-bit writes: the tag tells them apart. */
    method WriteInt(tag: Byte, value: int)
      requires Valid()
      modifies this, data
      ensures Valid() && Written() == old(Written()) + ([tag] + LowBytes(value, 4))
      ensures data == old(data) || fresh(data)
    {
      hide LowBytes;
      Preallocate(5);
      ghost var was := Written();
      FourBytes(value);
      Put(index + 0, tag);
      Put(index + 1, value % 256);
      Put(index + 2, value / 0x100 % 256);
      Put(index + 3, value / 0x1_0000 % 256);
      Put(index + 4, value / 0x100_0000 % 256);
      index := index + 5;
      assert Written() == was + ([tag] + LowBytes(value, 4));
    }

    method WriteInt64(value: int)
      requires Valid()
      modifies this, data
      ensures Valid() && Written() == old(Written()) + Encode(Int64(value))
      ensures data == old(data) || fresh(data)
    {
      hide LowBytes;
      Preallocate(8 + 1);
      Put(index + 0, INT64_TYPE);
      PutLow(index + 1, value, 8);
      index := index + (8 + 1);
    }

    method PutLow(at: nat, value: int, typeSize: nat)
      requires at + typeSize <= data.Length
      modifies data
      ensures data[..at + typeSize] == old(data[..at]) + LowBytes(value, typeSize)
    {
      ghost var was, bytes := data[..at], LowBytes(value, typeSize);
      hide LowBytes, ShiftBytes;
      for i := 0 to typeSize
        invariant data[..at + i] == was + bytes[..i]
      {
        ByteAt(value, typeSize, i);
        AddOne(data[..at + i], bytes, was, i);
        Put(at + i, ShiftBytes(value, i) % 256);
      }
    }

    method WriteTag(tag: Byte)
      requires Valid()
      modifies this, data
      ensures Valid() && Written() == old(Written()) + [tag]
      ensures data == old(data) || fresh(data)
    {
      Preallocate(1);
      data[index] := tag;
      index := index + 1;
    }

    /** Strings and type names: a tag, the length, the code units. */
    method WriteText(tag: Byte, value: seq<Unit>)
      requires Valid()
      modifies this, data
      ensures Valid() && Written() == old(Written()) + EncodeText(tag, value)
      ensures data == old(data) || fresh(data)
    {
      hide EncodeUnits, LowBytes;
      WriteTag(tag);
      WriteInt(INT32_TYPE, |value|);
      WriteUnits(value);
    }

    method WriteUnits(value: seq<Unit>)
      requires Valid()
      modifies this, data
      ensures Valid() && Written() == old(Written()) + EncodeUnits(value)
      ensures data == old(data) || fresh(data)
    {
      hide EncodeUnits;
      Preallocate(2 * |value|);
      PutUnits(value);
      index := index + 2 * |value|;
    }

    method PutUnits(value: seq<Unit>)
      requires index + 2 * |value| <= data.Length
      modifies data
      ensures data[..index + 2 * |value|] == old(data[..index]) + EncodeUnits(value)
    {
      ghost var was := data[..index];
      hide EncodeUnits;
      NoUnits();
      for i := 0 to |value|
        invariant data[..index + 2 * i] == was + EncodeUnits(value[..i])
      {
        UnitsNext(value, i);
        Put(index + i * 2 + 0, value[i] % 256);
        Put(index + i * 2 + 1, value[i] / 256);
      }
      assert value[..|value|] == value;
    }

    method WriteBytes(value: seq<Byte>)
      requires Valid()
      modifies this, data
      ensures Valid() && Written() == old(Written()) + Encode(Bytes(value))
      ensures data == old(data) || fresh(data)
    {
      hide LowBytes;
      WriteTag(BYTEARRAY_TYPE);
      WriteInt(INT32_TYPE, |value|);
      Preallocate(|value|);
      PutBytes(value);
      index := index + |value|;
    }

    method PutBytes(value: seq<Byte>)
      requires index + |value| <= data.Length
      modifies data
      ensures data[..index + |value|] == old(data[..index]) + value
    {
      ghost var was := data[..index];
      for i := 0 to |value|
        invariant data[..index + i] == was + value[..i]
      {
        AddOne(data[..index + i], value, was, i);
        Put(index + i, value[i]);
      }
      assert value[..|value|] == value;
    }

    /** The stream operators. */
    method Write(v: Value)
      requires Valid()
      modifies this, data
      ensures Valid() && Written() == old(Written()) + Encode(v)
      ensures data == old(data) || fresh(data)
      decreases v
    {
      hide LowBytes, EncodeText, EncodeAll, EncodeEntries;
      match v
      case Bool(b) => WriteBool(b);
      case Int32(n) => WriteInt(INT32_TYPE, n);
      case UInt32(u) => WriteInt(UINT32_TYPE, u);
      case Int64(l) => WriteInt64(l);
      case Str(s) => WriteText(STRING_TYPE, s);
      case Bytes(bytes) => WriteBytes(bytes);
      case TypeName(name) => WriteText(TYPE_TYPE, name);
      case Enum(n) => WriteInt(INT32_TYPE, n);
      case Pair(first, second) =>
        Write(first);
        Write(second);
      case Vector(values) =>
        WriteInt(INT32_TYPE, |values|);
        WriteAll(values);
      case Map(entries) =>
        WriteInt(UINT32_TYPE, |entries|);
        WriteEntries(entries);
    }

    method WriteAll(values: seq<Value>)
      requires Valid()
      modifies this, data
      ensures Valid() && Written() == old(Written()) + EncodeAll(values)
      ensures data == old(data) || fresh(data)
      decreases values
    {
      hide Encode, EncodeAll;
      NoValues();
      for i := 0 to |values|
        invariant Valid() && Written() == old(Written()) + EncodeAll(values[..i])
        invariant data == old(data) || fresh(data)
      {
        EncodeAllNext(values, i);
        Write(values[i]);
      }
      assert values[..|values|] == values;
    }

    method WriteEntries(entries: seq<Entry>)
      requires Valid()
      modifies this, data
      ensures Valid() && Written() == old(Written()) + EncodeEntries(entries)
      ensures data == old(data) || fresh(data)
      decreases entries
    {
      hide Encode, EncodeEntries;
      NoValues();
      for i := 0 to |entries|
        invariant Valid() && Written() == old(Written()) + EncodeEntries(entries[..i])
        invariant data == old(data) || fresh(data)
      {
        EncodeEntriesNext(entries, i);
        WriteEntry(entries[i]);
      }
      assert entries[..|entries|] == entries;
    }

    method WriteEntry(e: Entry)
      requires Valid()
      modifies this, data
      ensures Valid() && Written() == old(Written()) + EncodeEntry(e)
      ensures data == old(data) || fresh(data)
      decreases e
    {
      hide Encode;
      Write(e.key);
      Write(e.value);
    }
  }

  lemma AddOne(s: seq<Byte>, bytes: seq<Byte>, before: seq<Byte>, i: nat)
    requires i < |bytes| && s == before + bytes[..i]
    ensures s + [bytes[i]] == before + bytes[..i + 1]
  {}

  lemma NoUnits()
    ensures EncodeUnits([]) == []
  {}

  lemma NoValues()
    ensures EncodeAll([]) == [] && EncodeEntries([]) == []
  {}

  // ----- reading

  /** What a read gave: the value the format gives, with the cursor after it, or the program aborted. */
  ghost predicate Agrees<T>(r: Option<T>, rest: seq<Byte>, spec: Result<T>) {
    match spec
    case Read(value, after) => r == Some(value) && rest == after
    case Aborted => r == None
  }

  class Deserializer {
    const data: seq<Byte>
    var index: nat

    ghost predicate Valid()
      reads this
    {
      index <= |data|
    }

    ghost function Rest(): seq<Byte>
      requires Valid()
      reads this
    {
      data[index..]
    }

    constructor (bytes: seq<Byte>)
      ensures Valid() && data == bytes && Rest() == bytes
    {
      data := bytes;
      index := 0;
    }

    predicate IsEnd()
      reads this
    {
      index >= |data|
    }

    predicate EnsureSize(size: nat)
      reads this
    {
      size + index <= |data|
    }

    method EnsureType(tag: Byte) returns (ok: bool)
      requires Valid()
      modifies this
      ensures Valid() && ok == ReadTag(tag, old(Rest())).Read?
      ensures ok ==> Rest() == old(Rest())[1..]
    {
      if !EnsureSize(1) || data[index] != tag { return false; }
      index := index + 1;
      return true;
    }

    /** The bytes of an integer of `k` bytes, put together. */
    method ReadLowBytes(tag: Byte, k: nat) returns (r: Option<nat>)
      requires Valid()
      modifies this
      ensures Valid() && Agrees(r, Rest(), ReadLow(tag, k, old(Rest())))
    {
      var ok := EnsureType(tag);
      if !ok || !EnsureSize(k) { return None; }
      var value: nat := 0;
      ghost var s := Rest();
      hide FromBytes, Pow256;
      NoBytes();
      for i := 0 to k
        invariant Valid() && Rest() == s && k <= |s| && value == FromBytes(s[..i])
      {
        FromBytesNext(s, i);
        value := value + data[index + i] * Pow256(i);
      }
      index := index + k;
      return Some(value);
    }

    method ReadBool() returns (r: Option<Value>)
      requires Valid()
      modifies this
      ensures Valid() && Agrees(r, Rest(), Decode(BoolT, old(Rest())))
    {
      hide ReadLow;
      var n := ReadLowBytes(BOOL_TYPE, 1);
      if n.None? { return None; }
      return Some(Bool(n.value != 0));
    }

    method ReadInt() returns (r: Option<int>)
      requires Valid()
      modifies this
      ensures Valid() && Agrees(r, Rest(), ReadInt32(old(Rest())))
    {
      hide ReadLow, Signed;
      var n := ReadLowBytes(INT32_TYPE, 4);
      if n.None? { return None; }
      return Some(Signed(n.value, 4));
    }

    method ReadLength() returns (r: Option<nat>)
      requires Valid()
      modifies this
      ensures Valid() && Agrees(r, Rest(), ReadSize(old(Rest())))
    {
      hide ReadInt32;
      var n := ReadInt();
      if n.None? || n.value < 0 { return None; }
      return Some(n.value);
    }

    method ReadString(tag: Byte) returns (r: Option<seq<Unit>>)
      requires Valid()
      modifies this
      ensures Valid() && Agrees(r, Rest(), ReadText(tag, old(Rest())))
    {
      hide ReadSize;
      var ok := EnsureType(tag);
      if !ok { return None; }
      var size := ReadLength();
      if size.None? || !EnsureSize(2 * size.value) { return None; }
      var n := size.value;
      var units := ReadUnits(n);
      index := index + 2 * n;
      return Some(units);
    }

    method ReadUnits(n: nat) returns (units: seq<Unit>)
      requires Valid() && 2 * n <= |Rest()|
      ensures units == DecodeUnits(Rest()[..2 * n])
    {
      units := [];
      ghost var s := Rest();
      hide DecodeUnits;
      NoBytes();
      for i := 0 to n
        invariant units == DecodeUnits(s[..2 * i])
      {
        DecodeUnitsNext(s, i);
        units := units + [UnitOf(data[index + i * 2 + 0], data[index + i * 2 + 1])];
      }
    }

    method ReadByteArray() returns (r: Option<seq<Byte>>)
      requires Valid()
      modifies this
      ensures Valid() && Agrees(r, Rest(), ReadBytes(old(Rest())))
    {
      hide ReadSize;
      var ok := EnsureType(BYTEARRAY_TYPE);
      if !ok { return None; }
      var size := ReadLength();
      if size.None? || !EnsureSize(size.value) { return None; }
      var bytes := [];
      ghost var s := Rest();
      for i := 0 to size.value
        invariant Valid() && Rest() == s && size.value <= |s| && bytes == s[..i]
      {
        bytes := bytes + [data[index + i]];
      }
      index := index + size.value;
      return Some(bytes);
    }

    /** The stream operators. */
    method Read(t: Type) returns (r: Option<Value>)
      requires Valid()
      modifies this
      ensures Valid() && Agrees(r, Rest(), Decode(t, old(Rest())))
      decreases t, 1, 0
    {
      hide ReadLow, ReadInt32, ReadText, ReadBytes, ReadSize, Signed;
      match t
      case BoolT => r := ReadBool();
      case Int32T =>
        var n := ReadInt();
        return if n.None? then None else Some(Int32(n.value));
      case UInt32T =>
        var n := ReadLowBytes(UINT32_TYPE, 4);
        return if n.None? then None else Some(UInt32(n.value));
      case Int64T =>
        var n := ReadLowBytes(INT64_TYPE, 8);
        return if n.None? then None else Some(Int64(Signed(n.value, 8)));
      case StrT =>
        var s := ReadString(STRING_TYPE);
        return if s.None? then None else Some(Str(s.value));
      case BytesT =>
        var b := ReadByteArray();
        return if b.None? then None else Some(Bytes(b.value));
      case TypeNameT =>
        var s := ReadString(TYPE_TYPE);
        return if s.None? then None else Some(TypeName(s.value));
      case EnumT =>
        var n := ReadInt();
        return if n.None? then None else Some(Enum(n.value));
      case PairT(t1, t2) =>
        var first := Read(t1);
        if first.None? { return None; }
        var second := Read(t2);
        return if second.None? then None else Some(Pair(first.value, second.value));
      case VectorT(of) =>
        var size := ReadLength();
        if size.None? { return None; }
        var vs := ReadAll(of, size.value);
        return if vs.None? then None else Some(Vector(vs.value));
      case MapT(_, _) =>
        var size := ReadLowBytes(UINT32_TYPE, 4);
        if size.None? { return None; }
        var es := ReadEntries(t, size.value);
        return if es.None? then None else Some(Map(es.value));
    }

    method ReadAll(t: Type, n: nat) returns (r: Option<seq<Value>>)
      requires Valid()
      modifies this
      ensures Valid() && Agrees(r, Rest(), DecodeMany(t, n, old(Rest())))
      decreases t, 2, n
    {
      hide Decode;
      var vs := [];
      ghost var s := Rest();
      PrefixedEmpty(DecodeMany(t, n, s));
      for i := 0 to n
        invariant Valid() && Prefixed(vs, DecodeMany(t, n - i, Rest())) == DecodeMany(t, n, s)
      {
        var v := Read(t);
        if v.None? { return None; }
        ghost var later := DecodeMany(t, n - i - 1, Rest());
        PrefixedTwice(vs, [v.value], later);
        vs := vs + [v.value];
      }
      assert vs + [] == vs;
      return Some(vs);
    }

    method ReadEntries(t: Type, n: nat) returns (r: Option<seq<Entry>>)
      requires Valid() && t.MapT?
      modifies this
      ensures Valid() && Agrees(r, Rest(), DecodeEntries(t, n, old(Rest()), []))
      decreases t, 0, n
    {
      hide Decode, Insert;
      var es := [];
      ghost var s := Rest();
      for i := 0 to n
        invariant Valid() && DecodeEntries(t, n - i, Rest(), es) == DecodeEntries(t, n, s, [])
      {
        var k := Read(t.key);
        if k.None? { return None; }
        var v := Read(t.value);
        if v.None? { return None; }
        es := Insert(es, k.value, v.value);
      }
      return Some(es);
    }
  }

  ghost function Prefixed(vs: seq<Value>, r: Result<seq<Value>>): Result<seq<Value>> {
    if r.Aborted? then Aborted else Result.Read(vs + r.value, r.rest)
  }

  lemma PrefixedEmpty(r: Result<seq<Value>>)
    ensures Prefixed([], r) == r
  {
    assert r.Read? ==> [] + r.value == r.value;
  }

  lemma PrefixedTwice(vs: seq<Value>, ws: seq<Value>, r: Result<seq<Value>>)
    ensures Prefixed(vs, Prefixed(ws, r)) == Prefixed(vs + ws, r)
  {
    assert r.Read? ==> vs + (ws + r.value) == vs + ws + r.value;
  }

  lemma NoBytes()
    ensures FromBytes([]) == 0 && DecodeUnits([]) == []
  {}
}
