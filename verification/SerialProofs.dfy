/** The save format can be read back: every value, whatever follows it, and never from only a part of its bytes. */
module SerialTheorems {
  import opened Arithmetic
  import opened SerialFormat

  // ----- integers

  lemma {:induction false} FromLowBytes(n: int, k: nat)
    ensures FromBytes(LowBytes(n, k)) == n % Pow256(k)
    decreases k
  {
    if k > 0 {
      FromLowBytes(n / 256, k - 1);
      assert LowBytes(n, k)[1..] == LowBytes(n / 256, k - 1);
      ModSplit(n, Pow256(k - 1));
    }
  }

  lemma ModSplit(n: int, p: nat)
    requires p > 0
    ensures n % (256 * p) == n % 256 + 256 * (n / 256 % p)
  {
    var q, r, d := n / 256, n % 256, n / 256 / p;
    assert q == d * p + q % p;
    assert n == (256 * p) * d + (r + 256 * (q % p));
    DivModIs(n, 256 * p, d, r + 256 * (q % p));
  }

  lemma SignedBack(n: int, k: nat)
    requires InSigned(n, k)
    ensures Signed(n % Pow256(k), k) == n
  {
    var p := Pow256(k);
    if n >= 0 { DivModIs(n, p, 0, n); } else { DivModIs(n, p, -1, n + p); }
  }

  // ----- atoms

  lemma TagBack(tag: Byte, s: seq<Byte>)
    ensures ReadTag(tag, [tag] + s) == Read((), s)
  {
    assert ([tag] + s)[1..] == s;
  }

  lemma LowBack(tag: Byte, n: int, k: nat, rest: seq<Byte>)
    ensures ReadLow(tag, k, [tag] + LowBytes(n, k) + rest) == Read(n % Pow256(k), rest)
  {
    var bytes := LowBytes(n, k);
    TagBack(tag, bytes + rest);
    assert [tag] + bytes + rest == [tag] + (bytes + rest);
    assert (bytes + rest)[..k] == bytes && (bytes + rest)[k..] == rest;
    FromLowBytes(n, k);
  }

  lemma Int32Back(n: int, rest: seq<Byte>)
    requires InSigned(n, 4)
    ensures ReadInt32(EncodeInt32(n) + rest) == Read(n, rest)
  {
    LowBack(INT32_TYPE, n, 4, rest);
    SignedBack(n, 4);
    hide Pow256, LowBytes, FromBytes, Signed;
  }

  lemma SizeBack(n: nat, rest: seq<Byte>)
    requires InSigned(n, 4)
    ensures ReadSize(EncodeInt32(n) + rest) == Read(n, rest)
  {
    Int32Back(n, rest);
    hide EncodeInt32;
  }

  lemma UInt32Back(n: nat, rest: seq<Byte>)
    requires n < Pow256(4)
    ensures ReadLow(UINT32_TYPE, 4, EncodeUInt32(n) + rest) == Read(n, rest)
  {
    LowBack(UINT32_TYPE, n, 4, rest);
    DivModIs(n, Pow256(4), 0, n);
    hide Pow256, LowBytes, FromBytes, ReadLow;
  }

  lemma {:induction false} UnitsBack(s: seq<Unit>)
    ensures |EncodeUnits(s)| == 2 * |s| && DecodeUnits(EncodeUnits(s)) == s
  {
    if s != [] {
      UnitsBack(s[1..]);
      var e := EncodeUnits(s);
      assert e[2..] == EncodeUnits(s[1..]);
      assert e[0] == s[0] % 256 && e[1] == s[0] / 256;
      assert s == [s[0]] + s[1..];
    }
  }

  lemma TextBack(tag: Byte, s: seq<Unit>, rest: seq<Byte>)
    requires InSigned(|s|, 4)
    ensures ReadText(tag, EncodeText(tag, s) + rest) == Read(s, rest)
  {
    hide Pow256, EncodeUnits, DecodeUnits, EncodeInt32, ReadSize, InSigned;
    var units := EncodeUnits(s);
    UnitsBack(s);
    SizeBack(|s|, units + rest);
    TagBack(tag, EncodeInt32(|s|) + (units + rest));
    assert EncodeText(tag, s) + rest == [tag] + (EncodeInt32(|s|) + (units + rest));
    assert (units + rest)[..2 * |s|] == units && (units + rest)[2 * |s|..] == rest;
  }

  lemma BytesBack(bytes: seq<Byte>, rest: seq<Byte>)
    requires InSigned(|bytes|, 4)
    ensures ReadBytes(Encode(Bytes(bytes)) + rest) == Read(bytes, rest)
  {
    hide Pow256, EncodeInt32, ReadSize, InSigned;
    SizeBack(|bytes|, bytes + rest);
    TagBack(BYTEARRAY_TYPE, EncodeInt32(|bytes|) + (bytes + rest));
    assert Encode(Bytes(bytes)) + rest == [BYTEARRAY_TYPE] + (EncodeInt32(|bytes|) + (bytes + rest));
    assert (bytes + rest)[..|bytes|] == bytes && (bytes + rest)[|bytes|..] == rest;
  }

  // ----- maps

  lemma {:induction false} NotBothLess(a: Value, b: Value)
    ensures Less(a, b) ==> !Less(b, a) && a != b
  {
    if a.Str? && b.Str? { UnitsNotBothLess(a.s, b.s); }
  }

  lemma {:induction false} UnitsNotBothLess(s: seq<Unit>, t: seq<Unit>)
    ensures UnitsLess(s, t) ==> !UnitsLess(t, s) && s != t
  {
    if s != [] && t != [] { UnitsNotBothLess(s[1..], t[1..]); }
  }

  /** A key above all keys goes to the end. */
  lemma {:induction false} InsertLast(es: seq<Entry>, k: Value, v: Value)
    requires Ascending(es + [Entry(k, v)])
    ensures Insert(es, k, v) == es + [Entry(k, v)]
  {
    if es != [] {
      var all := es + [Entry(k, v)];
      assert Less(all[0].key, all[|es|].key);
      NotBothLess(es[0].key, k);
      assert all[1..] == es[1..] + [Entry(k, v)];
      InsertLast(es[1..], k, v);
    }
  }

  // ----- values

  predicate IsAtom(v: Value) {
    !v.Pair? && !v.Vector? && !v.Map?
  }

  lemma AtomBack(v: Value, t: Type, rest: seq<Byte>)
    requires Fits(v, t) && IsAtom(v)
    ensures Decode(t, Encode(v) + rest) == Read(v, rest)
  {
    hide Pow256, LowBytes, FromBytes, EncodeText, ReadText, ReadBytes, ReadInt32, ReadSize, EncodeInt32, EncodeUInt32, ReadLow, InSigned;
    match v
    case Bool(b) =>
      assert Encode(v) + rest == [BOOL_TYPE] + ([if b then 1 else 0] + rest);
      BoolBack(b, rest);
    case Int32(n) => Int32Back(n, rest);
    case UInt32(u) => UInt32Back(u, rest);
    case Int64(l) =>
      LowBack(INT64_TYPE, l, 8, rest);
      SignedBack(l, 8);
    case Str(s) => TextBack(STRING_TYPE, s, rest);
    case Bytes(bytes) => BytesBack(bytes, rest);
    case TypeName(name) => TextBack(TYPE_TYPE, name, rest);
    case Enum(n) => Int32Back(n, rest);
  }

  /** Decoding what was encoded gives the value and leaves exactly what followed. */
  lemma {:induction false} RoundTrip(v: Value, t: Type, rest: seq<Byte>)
    requires Fits(v, t)
    ensures Decode(t, Encode(v) + rest) == Read(v, rest)
    decreases v, 1
  {
    hide Encode, Decode, Fits;
    if IsAtom(v) {
      AtomBack(v, t, rest);
    } else if v.Pair? {
      PairBack(v, t, rest);
    } else if v.Vector? {
      VectorBack(v, t, rest);
    } else {
      MapBack(v, t, rest);
    }
  }

  lemma {:induction false} PairBack(v: Value, t: Type, rest: seq<Byte>)
    requires Fits(v, t) && v.Pair?
    ensures Decode(t, Encode(v) + rest) == Read(v, rest)
    decreases v, 0
  {
    hide EncodeText, ReadText, ReadBytes, ReadInt32, ReadSize, EncodeInt32, EncodeUInt32, ReadLow;
    assert Encode(v) + rest == Encode(v.first) + (Encode(v.second) + rest);
    RoundTrip(v.first, t.first, Encode(v.second) + rest);
    RoundTrip(v.second, t.second, rest);
  }

  lemma {:induction false} VectorBack(v: Value, t: Type, rest: seq<Byte>)
    requires Fits(v, t) && v.Vector?
    ensures Decode(t, Encode(v) + rest) == Read(v, rest)
    decreases v, 0
  {
    hide Pow256, EncodeText, ReadText, ReadBytes, ReadInt32, ReadSize, EncodeInt32, EncodeUInt32, ReadLow;
    assert Encode(v) + rest == EncodeInt32(|v.values|) + (EncodeAll(v.values) + rest);
    SizeBack(|v.values|, EncodeAll(v.values) + rest);
    ManyBack(v.values, t.of, rest);
  }

  lemma {:induction false} MapBack(v: Value, t: Type, rest: seq<Byte>)
    requires Fits(v, t) && v.Map?
    ensures Decode(t, Encode(v) + rest) == Read(v, rest)
    decreases v, 0
  {
    hide *;
    var es := v.entries;
    var later := EncodeEntries(es) + rest;
    MapParts(v, t);
    EncodeMap(v, rest);
    UInt32Back(|es|, later);
    DecodeMap(t, EncodeUInt32(|es|) + later);
    assert [] + es == es;
    EntriesBack(es, t, rest, []);
  }

  lemma EncodeMap(v: Value, rest: seq<Byte>)
    requires v.Map?
    ensures Encode(v) + rest == EncodeUInt32(|v.entries|) + (EncodeEntries(v.entries) + rest)
  {
    hide EncodeUInt32, EncodeEntries;
  }

  lemma MapParts(v: Value, t: Type)
    requires Fits(v, t) && v.Map?
    ensures var es := v.entries;
      && t.MapT? && |es| < Pow256(4) && Ascending(es)
      && forall i :: 0 <= i < |es| ==> Fits(es[i].key, t.key) && Fits(es[i].value, t.value)
  {
    hide Ascending, Pow256;
  }

  lemma DecodeMap(t: Type, s: seq<Byte>)
    requires t.MapT?
    ensures var n := ReadLow(UINT32_TYPE, 4, s);
      n.Read? ==>
        var r := DecodeEntries(t, n.value, n.rest, []);
        r.Read? ==> Decode(t, s) == Read(Map(r.value), r.rest)
  {
    hide ReadLow, DecodeEntries;
  }

  lemma BoolBack(b: bool, rest: seq<Byte>)
    ensures ReadLow(BOOL_TYPE, 1, [BOOL_TYPE] + ([if b then 1 else 0] + rest)) == Read(if b then 1 else 0, rest)
  {
    var n := if b then 1 else 0;
    LowBack(BOOL_TYPE, n, 1, rest);
    assert LowBytes(n, 1) == [n];
    assert [BOOL_TYPE] + [n] + rest == [BOOL_TYPE] + ([n] + rest);
    hide ReadLow;
  }

  lemma {:induction false} ManyBack(vs: seq<Value>, t: Type, rest: seq<Byte>)
    requires forall i :: 0 <= i < |vs| ==> Fits(vs[i], t)
    ensures DecodeMany(t, |vs|, EncodeAll(vs) + rest) == Read(vs, rest)
    decreases vs, 0
  {
    hide Decode, Encode, Fits;
    if vs == [] {
      assert EncodeAll(vs) + rest == rest;
    } else {
      RoundTrip(vs[0], t, EncodeAll(vs[1..]) + rest);
      ManyBack(vs[1..], t, rest);
      assert EncodeAll(vs) + rest == Encode(vs[0]) + (EncodeAll(vs[1..]) + rest);
      assert vs == [vs[0]] + vs[1..];
    }
  }

  lemma {:induction false} EntriesBack(es: seq<Entry>, t: Type, rest: seq<Byte>, before: seq<Entry>)
    requires t.MapT? && Ascending(before + es)
    requires forall i :: 0 <= i < |es| ==> Fits(es[i].key, t.key) && Fits(es[i].value, t.value)
    ensures DecodeEntries(t, |es|, EncodeEntries(es) + rest, before) == Read(before + es, rest)
    decreases es, 0
  {
    hide Decode, Encode, Fits, Insert;
    if es == [] {
      assert EncodeEntries(es) + rest == rest && before + es == before;
    } else {
      var e, later := es[0], EncodeEntries(es[1..]) + rest;
      EntryBack(e, t, later);
      assert EncodeEntries(es) + rest == EncodeEntry(e) + later;
      assert before + es == before + [e] + es[1..];
      assert Ascending(before + [e]) by { assert before + [e] == (before + es)[..|before| + 1]; }
      InsertLast(before, e.key, e.value);
      EntriesBack(es[1..], t, rest, before + [e]);
    }
  }

  lemma EntryBack(e: Entry, t: Type, rest: seq<Byte>)
    requires t.MapT? && Fits(e.key, t.key) && Fits(e.value, t.value)
    ensures var k := Decode(t.key, EncodeEntry(e) + rest);
      k == Read(e.key, Encode(e.value) + rest) && Decode(t.value, k.rest) == Read(e.value, rest)
    decreases e, 0
  {
    hide Decode, Encode, Fits;
    assert EncodeEntry(e) + rest == Encode(e.key) + (Encode(e.value) + rest);
    RoundTrip(e.key, t.key, Encode(e.value) + rest);
    RoundTrip(e.value, t.value, rest);
  }

  // ----- parts of an encoding

  /** Bytes after what a read has used change nothing but what is left. */
  lemma {:induction false} Stable(t: Type, s: seq<Byte>, x: seq<Byte>)
    requires Decode(t, s).Read?
    ensures Decode(t, s + x) == Read(Decode(t, s).value, Decode(t, s).rest + x)
    decreases t, 1, 0
  {
    match t
    case BoolT => LowStable(BOOL_TYPE, 1, s, x);
    case Int32T => LowStable(INT32_TYPE, 4, s, x);
    case UInt32T => LowStable(UINT32_TYPE, 4, s, x);
    case Int64T => LowStable(INT64_TYPE, 8, s, x);
    case StrT => TextStable(STRING_TYPE, s, x);
    case BytesT => BytesStable(s, x);
    case TypeNameT => TextStable(TYPE_TYPE, s, x);
    case EnumT => LowStable(INT32_TYPE, 4, s, x);
    case PairT(t1, t2) =>
      Stable(t1, s, x);
      Stable(t2, Decode(t1, s).rest, x);
    case VectorT(of) =>
      SizeStable(s, x);
      ManyStable(of, ReadSize(s).value, ReadSize(s).rest, x);
    case MapT(_, _) =>
      LowStable(UINT32_TYPE, 4, s, x);
      var n := ReadLow(UINT32_TYPE, 4, s);
      EntriesStable(t, n.value, n.rest, [], x);
  }

  lemma LowStable(tag: Byte, k: nat, s: seq<Byte>, x: seq<Byte>)
    requires ReadLow(tag, k, s).Read?
    ensures ReadLow(tag, k, s + x) == Read(ReadLow(tag, k, s).value, ReadLow(tag, k, s).rest + x)
  {
    var t := s[1..];
    assert (s + x)[1..] == t + x;
    assert (t + x)[..k] == t[..k] && (t + x)[k..] == t[k..] + x;
    hide FromBytes;
  }

  lemma SizeStable(s: seq<Byte>, x: seq<Byte>)
    requires ReadSize(s).Read?
    ensures ReadSize(s + x) == Read(ReadSize(s).value, ReadSize(s).rest + x)
  {
    hide ReadLow, Signed;
    LowStable(INT32_TYPE, 4, s, x);
  }

  lemma TextStable(tag: Byte, s: seq<Byte>, x: seq<Byte>)
    requires ReadText(tag, s).Read?
    ensures ReadText(tag, s + x) == Read(ReadText(tag, s).value, ReadText(tag, s).rest + x)
  {
    hide ReadSize, DecodeUnits;
    assert (s + x)[1..] == s[1..] + x;
    SizeStable(s[1..], x);
    var n := ReadSize(s[1..]);
    assert (n.rest + x)[..2 * n.value] == n.rest[..2 * n.value];
    assert (n.rest + x)[2 * n.value..] == n.rest[2 * n.value..] + x;
  }

  lemma BytesStable(s: seq<Byte>, x: seq<Byte>)
    requires ReadBytes(s).Read?
    ensures ReadBytes(s + x) == Read(ReadBytes(s).value, ReadBytes(s).rest + x)
  {
    hide ReadSize;
    assert (s + x)[1..] == s[1..] + x;
    SizeStable(s[1..], x);
    var n := ReadSize(s[1..]);
    assert (n.rest + x)[..n.value] == n.rest[..n.value];
    assert (n.rest + x)[n.value..] == n.rest[n.value..] + x;
  }

  lemma {:induction false} ManyStable(t: Type, n: nat, s: seq<Byte>, x: seq<Byte>)
    requires DecodeMany(t, n, s).Read?
    ensures DecodeMany(t, n, s + x) == Read(DecodeMany(t, n, s).value, DecodeMany(t, n, s).rest + x)
    decreases t, 2, n
  {
    if n > 0 {
      Stable(t, s, x);
      hide Decode;
      ManyStable(t, n - 1, Decode(t, s).rest, x);
    }
  }

  lemma {:induction false} EntriesStable(t: Type, n: nat, s: seq<Byte>, es: seq<Entry>, x: seq<Byte>)
    requires t.MapT? && DecodeEntries(t, n, s, es).Read?
    ensures DecodeEntries(t, n, s + x, es) == Read(DecodeEntries(t, n, s, es).value, DecodeEntries(t, n, s, es).rest + x)
    decreases t, 0, n
  {
    if n > 0 {
      var k := Decode(t.key, s);
      var v := Decode(t.value, k.rest);
      Stable(t.key, s, x);
      Stable(t.value, k.rest, x);
      hide Decode, Insert;
      EntriesStable(t, n - 1, v.rest, Insert(es, k.value, v.value), x);
    }
  }

  /** A value cannot be read from a part of its encoding: a file cut short is noticed. */
  lemma CutShort(v: Value, t: Type, part: seq<Byte>)
    requires Fits(v, t) && part < Encode(v)
    ensures Decode(t, part).Aborted?
  {
    hide Decode, Encode, Fits;
    var x := Encode(v)[|part|..];
    assert Encode(v) + [] == Encode(v) && part + x == Encode(v);
    RoundTrip(v, t, []);
    if Decode(t, part).Read? {
      Stable(t, part, x);
    }
  }

  /** Two streams that start with values of one type and agree, agree in the values. */
  lemma SelfDelimiting(v: Value, w: Value, t: Type, rest: seq<Byte>, other: seq<Byte>)
    requires Fits(v, t) && Fits(w, t) && Encode(v) + rest == Encode(w) + other
    ensures v == w && rest == other
  {
    hide Decode, Encode, Fits;
    RoundTrip(v, t, rest);
    RoundTrip(w, t, other);
  }

  // ----- reading goes forward

  lemma {:induction false} Uses(t: Type, s: seq<Byte>)
    ensures Decode(t, s).Read? ==> |Decode(t, s).rest| <= |s|
    decreases t, 1, 0
  {
    hide FromBytes, DecodeUnits;
    match t
    case PairT(t1, t2) =>
      Uses(t1, s);
      if Decode(t1, s).Read? { Uses(t2, Decode(t1, s).rest); }
    case VectorT(of) =>
      if ReadSize(s).Read? { ManyUse(of, ReadSize(s).value, ReadSize(s).rest); }
    case MapT(_, _) =>
      var n := ReadLow(UINT32_TYPE, 4, s);
      if n.Read? { EntriesUse(t, n.value, n.rest, []); }
    case _ =>
  }

  lemma {:induction false} ManyUse(t: Type, n: nat, s: seq<Byte>)
    ensures DecodeMany(t, n, s).Read? ==> |DecodeMany(t, n, s).rest| <= |s|
    decreases t, 2, n
  {
    if n > 0 && Decode(t, s).Read? {
      Uses(t, s);
      hide Decode;
      ManyUse(t, n - 1, Decode(t, s).rest);
    }
  }

  lemma {:induction false} EntriesUse(t: Type, n: nat, s: seq<Byte>, es: seq<Entry>)
    requires t.MapT?
    ensures DecodeEntries(t, n, s, es).Read? ==> |DecodeEntries(t, n, s, es).rest| <= |s|
    decreases t, 0, n
  {
    if n > 0 && DecodeEntries(t, n, s, es).Read? {
      var k := Decode(t.key, s);
      var v := Decode(t.value, k.rest);
      Uses(t.key, s);
      Uses(t.value, k.rest);
      hide Decode, Insert;
      EntriesUse(t, n - 1, v.rest, Insert(es, k.value, v.value));
    }
  }
}
