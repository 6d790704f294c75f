/** The byte format of saves (sources/core/FastSerializer.h and SaveableOperators.h): every value is tagged,
    and says itself where it ends.
 */
module SerialFormat {

  type Byte = x: int | 0 <= x < 256
  /** A UTF-16 code unit. */
  type Unit = x: int | 0 <= x < 0x1_0000

  const BOOL_TYPE: Byte := 1
  const INT32_TYPE: Byte := 2
  const UINT32_TYPE: Byte := 3
  const STRING_TYPE: Byte := 4
  const BYTEARRAY_TYPE: Byte := 5
  const TYPE_TYPE: Byte := 6
  const INT64_TYPE: Byte := 7

  /** What the stream operators write, and the C++ types they are written from. */
  datatype Value =
    | Bool(b: bool) | Int32(n: int) | UInt32(u: nat) | Int64(l: int) | Str(s: seq<Unit>) | Bytes(bytes: seq<Byte>)
    | TypeName(name: seq<Unit>) | Enum(underlying: int)
    | Pair(first: Value, second: Value) | Vector(values: seq<Value>) | Map(entries: seq<Entry>)
  datatype Entry = Entry(key: Value, value: Value)
  datatype Type =
    | BoolT | Int32T | UInt32T | Int64T | StrT | BytesT | TypeNameT | EnumT
    | PairT(first: Type, second: Type) | VectorT(of: Type) | MapT(key: Type, value: Type)

  // ----- integers as bytes, lowest first

  function Pow256(k: nat): (p: nat)
    ensures p > 0
  {
    if k == 0 then 1 else 256 * Pow256(k - 1)
  }

  /** `n >> 8 * i`, the arithmetic shift. */
  function ShiftBytes(n: int, i: nat): int
    decreases i
  {
    if i == 0 then n else ShiftBytes(n / 256, i - 1)
  }

  function LowBytes(n: int, k: nat): (s: seq<Byte>)
    ensures |s| == k
    decreases k
  {
    if k == 0 then [] else [n % 256] + LowBytes(n / 256, k - 1)
  }

  function FromBytes(s: seq<Byte>): nat {
    if s == [] then 0 else s[0] + 256 * FromBytes(s[1..])
  }

  /** The signed integer of `k` bytes with the bits of `u`. */
  function Signed(u: nat, k: nat): int {
    var n: int := u;
    if 2 * n >= Pow256(k) then n - Pow256(k) else n
  }

  predicate InSigned(n: int, k: nat) {
    var p: int := Pow256(k);
    -p <= 2 * n < p
  }

  // ----- writing

  function EncodeInt32(n: int): seq<Byte> { [INT32_TYPE] + LowBytes(n, 4) }
  function EncodeUInt32(n: int): seq<Byte> { [UINT32_TYPE] + LowBytes(n, 4) }

  function EncodeUnits(s: seq<Unit>): seq<Byte> {
    if s == [] then [] else [s[0] % 256, s[0] / 256] + EncodeUnits(s[1..])
  }

  function EncodeText(tag: Byte, s: seq<Unit>): seq<Byte> {
    [tag] + (EncodeInt32(|s|) + EncodeUnits(s))
  }

  function Encode(v: Value): seq<Byte> {
    match v
    case Bool(b) => [BOOL_TYPE, if b then 1 else 0]
    case Int32(n) => EncodeInt32(n)
    case UInt32(u) => EncodeUInt32(u)
    case Int64(l) => [INT64_TYPE] + LowBytes(l, 8)
    case Str(s) => EncodeText(STRING_TYPE, s)
    case Bytes(bytes) => [BYTEARRAY_TYPE] + (EncodeInt32(|bytes|) + bytes)
    case TypeName(name) => EncodeText(TYPE_TYPE, name)
    case Enum(n) => EncodeInt32(n)
    case Pair(first, second) => Encode(first) + Encode(second)
    case Vector(values) => EncodeInt32(|values|) + EncodeAll(values)
    case Map(entries) => EncodeUInt32(|entries|) + EncodeEntries(entries)
  }

  function EncodeAll(vs: seq<Value>): seq<Byte> {
    if vs == [] then [] else Encode(vs[0]) + EncodeAll(vs[1..])
  }

  function EncodeEntries(es: seq<Entry>): seq<Byte> {
    if es == [] then [] else EncodeEntry(es[0]) + EncodeEntries(es[1..])
  }

  function EncodeEntry(e: Entry): seq<Byte> {
    Encode(e.key) + Encode(e.value)
  }

  // ----- maps, kept in the order of their keys

  /** The order of the keys: of numbers, and of strings by code unit. */
  predicate Less(a: Value, b: Value) {
    match (a, b)
    case (Int32(m), Int32(n)) => m < n
    case (UInt32(m), UInt32(n)) => m < n
    case (Int64(m), Int64(n)) => m < n
    case (Enum(m), Enum(n)) => m < n
    case (Str(s), Str(t)) => UnitsLess(s, t)
    case _ => false
  }

  predicate UnitsLess(s: seq<Unit>, t: seq<Unit>) {
    if s == [] || t == [] then t != [] else s[0] < t[0] || (s[0] == t[0] && UnitsLess(s[1..], t[1..]))
  }

  predicate Ascending(es: seq<Entry>) {
    forall i, j :: 0 <= i < j < |es| ==> Less(es[i].key, es[j].key)
  }

  /** Insert into a map, or replace the value its key has. */
  function Insert(es: seq<Entry>, k: Value, v: Value): seq<Entry> {
    if es == [] then [Entry(k, v)]
    else if es[0].key == k then [Entry(k, v)] + es[1..]
    else if Less(k, es[0].key) then [Entry(k, v)] + es
    else [es[0]] + Insert(es[1..], k, v)
  }

  // ----- reading

  /** A value read and the bytes after it, or the program aborted. */
  datatype Result<T> = Read(value: T, rest: seq<Byte>) | Aborted

  function ReadTag(tag: Byte, s: seq<Byte>): Result<()> {
    if |s| > 0 && s[0] == tag then Read((), s[1..]) else Aborted
  }

  function ReadLow(tag: Byte, k: nat, s: seq<Byte>): Result<nat> {
    var t := ReadTag(tag, s);
    if t.Aborted? || |t.rest| < k then Aborted else Read(FromBytes(t.rest[..k]), t.rest[k..])
  }

  function ReadInt32(s: seq<Byte>): Result<int> {
    var r := ReadLow(INT32_TYPE, 4, s);
    if r.Aborted? then Aborted else Read(Signed(r.value, 4), r.rest)
  }

  /** A length: an int32 that C++ only defines the rest of the read for when it is not negative. */
  function ReadSize(s: seq<Byte>): Result<nat> {
    var r := ReadInt32(s);
    if r.Aborted? || r.value < 0 then Aborted else Read(r.value, r.rest)
  }

  function UnitOf(low: Byte, high: Byte): Unit {
    var l: int, h: int := low, high;
    l + 256 * h
  }

  function DecodeUnits(s: seq<Byte>): seq<Unit>
    requires |s| % 2 == 0
  {
    if s == [] then [] else [UnitOf(s[0], s[1])] + DecodeUnits(s[2..])
  }

  function ReadText(tag: Byte, s: seq<Byte>): Result<seq<Unit>> {
    var t := ReadTag(tag, s);
    if t.Aborted? then Aborted
    else
      var n := ReadSize(t.rest);
      if n.Aborted? || |n.rest| < 2 * n.value then Aborted
      else Read(DecodeUnits(n.rest[..2 * n.value]), n.rest[2 * n.value..])
  }

  function ReadBytes(s: seq<Byte>): Result<seq<Byte>> {
    var t := ReadTag(BYTEARRAY_TYPE, s);
    if t.Aborted? then Aborted
    else
      var n := ReadSize(t.rest);
      if n.Aborted? || |n.rest| < n.value then Aborted else Read(n.rest[..n.value], n.rest[n.value..])
  }

  function Decode(t: Type, s: seq<Byte>): Result<Value>
    decreases t, 1, 0
  {
    match t
    case BoolT =>
      var r := ReadLow(BOOL_TYPE, 1, s);
      if r.Aborted? then Aborted else Read(Bool(r.value != 0), r.rest)
    case Int32T =>
      var r := ReadInt32(s);
      if r.Aborted? then Aborted else Read(Int32(r.value), r.rest)
    case UInt32T =>
      var r := ReadLow(UINT32_TYPE, 4, s);
      if r.Aborted? then Aborted else Read(UInt32(r.value), r.rest)
    case Int64T =>
      var r := ReadLow(INT64_TYPE, 8, s);
      if r.Aborted? then Aborted else Read(Int64(Signed(r.value, 8)), r.rest)
    case StrT =>
      var r := ReadText(STRING_TYPE, s);
      if r.Aborted? then Aborted else Read(Str(r.value), r.rest)
    case BytesT =>
      var r := ReadBytes(s);
      if r.Aborted? then Aborted else Read(Bytes(r.value), r.rest)
    case TypeNameT =>
      var r := ReadText(TYPE_TYPE, s);
      if r.Aborted? then Aborted else Read(TypeName(r.value), r.rest)
    case EnumT =>
      var r := ReadInt32(s);
      if r.Aborted? then Aborted else Read(Enum(r.value), r.rest)
    case PairT(t1, t2) =>
      var first := Decode(t1, s);
      if first.Aborted? then Aborted
      else
        var second := Decode(t2, first.rest);
        if second.Aborted? then Aborted else Read(Pair(first.value, second.value), second.rest)
    case VectorT(of) =>
      var n := ReadSize(s);
      if n.Aborted? then Aborted
      else
        var r := DecodeMany(of, n.value, n.rest);
        if r.Aborted? then Aborted else Read(Vector(r.value), r.rest)
    case MapT(_, _) =>
      var n := ReadLow(UINT32_TYPE, 4, s);
      if n.Aborted? then Aborted
      else
        var r := DecodeEntries(t, n.value, n.rest, []);
        if r.Aborted? then Aborted else Read(Map(r.value), r.rest)
  }

  function DecodeMany(t: Type, n: nat, s: seq<Byte>): Result<seq<Value>>
    decreases t, 2, n
  {
    if n == 0 then Read([], s)
    else
      var first := Decode(t, s);
      if first.Aborted? then Aborted
      else
        var r := DecodeMany(t, n - 1, first.rest);
        if r.Aborted? then Aborted else Read([first.value] + r.value, r.rest)
  }

  /** Read `n` entries into a map that holds `es`. */
  function DecodeEntries(t: Type, n: nat, s: seq<Byte>, es: seq<Entry>): Result<seq<Entry>>
    requires t.MapT?
    decreases t, 0, n
  {
    if n == 0 then Read(es, s)
    else
      var k := Decode(t.key, s);
      if k.Aborted? then Aborted
      else
        var v := Decode(t.value, k.rest);
        if v.Aborted? then Aborted else DecodeEntries(t, n - 1, v.rest, Insert(es, k.value, v.value))
  }

  // ----- which values a type has

  /** Types QMap can have as keys here. */
  predicate KeyType(t: Type) {
    t in {Int32T, UInt32T, Int64T, EnumT, StrT}
  }

  /** The value is one of the C++ type: in range, and of a size an int can hold. */
  predicate Fits(v: Value, t: Type) {
    match (v, t)
    case (Bool(_), BoolT) => true
    case (Int32(n), Int32T) => InSigned(n, 4)
    case (UInt32(u), UInt32T) => u < Pow256(4)
    case (Int64(l), Int64T) => InSigned(l, 8)
    case (Str(s), StrT) => InSigned(|s|, 4)
    case (Bytes(bytes), BytesT) => InSigned(|bytes|, 4)
    case (TypeName(name), TypeNameT) => InSigned(|name|, 4)
    case (Enum(n), EnumT) => InSigned(n, 4)
    case (Pair(a, b), PairT(ta, tb)) => Fits(a, ta) && Fits(b, tb)
    case (Vector(values), VectorT(of)) => InSigned(|values|, 4) && forall i :: 0 <= i < |values| ==> Fits(values[i], of)
    case (Map(es), MapT(k, v)) =>
      && InSigned(|es|, 4) && KeyType(k) && Ascending(es)
      && forall i :: 0 <= i < |es| ==> Fits(es[i].key, k) && Fits(es[i].value, v)
    case _ => false
  }
}
