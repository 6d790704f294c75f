/** The hash of a world (sources/core/ObjectFactory.cpp:202-216, objects/Object.h:50-56), which clients compare, and
    what saving and loading make of it. How the members of a class are hashed is a parameter.
 */
module WorldHash {
  import Arithmetic
  import opened Options
  import opened SerialFormat
  import opened WorldFormat
  import opened WorldTheorems

  /** HashMembers: id, frequency, the saved members, and one for every burning atmos holder. */
  function HashMembers(digest: (Name, Value) -> nat, o: Obj): nat {
    (o.id + o.freq + digest(o.kind, o.members) + o.fires) % WORD
  }

  /** The sum over the objects at ids below `n`, in 32 bits. */
  function HashBelow(digest: (Name, Value) -> nat, w: World, n: nat): nat {
    if n == 0 then 0
    else
      var h := HashBelow(digest, w, n - 1);
      if At(w, n - 1).None? then h else (h + HashMembers(digest, At(w, n - 1).value)) % WORD
  }

  function Hash(digest: (Name, Value) -> nat, w: World): nat {
    HashBelow(digest, w, |w.table|)
  }

  /** ObjectFactory::Hash. Place 0 holds no object. */
  method HashTable(digest: (Name, Value) -> nat, w: World) returns (h: nat)
    requires |w.table| > 0 && w.table[0].None?
    ensures h == Hash(digest, w)
  {
    h := 0;
    for i := 1 to |w.table|
      invariant h == HashBelow(digest, w, i)
    {
      if w.table[i].Some? {
        h := (h + HashMembers(digest, w.table[i].value)) % WORD;
      }
    }
  }

  // ----- what moves the hash

  lemma {:induction false} HashBelowSame(digest: (Name, Value) -> nat, w: World, v: World, n: nat)
    requires forall k: nat :: k < n ==> At(w, k) == At(v, k)
    ensures HashBelow(digest, w, n) == HashBelow(digest, v, n)
  {
    if n > 0 { HashBelowSame(digest, w, v, n - 1); }
  }

  /** What an object adds to the hash, or an empty place. */
  function Share(digest: (Name, Value) -> nat, o: Option<Obj>): int {
    if o.None? then 0 else o.value.id + o.value.freq + digest(o.value.kind, o.value.members) + o.value.fires
  }

  /** A sum in 32 bits, and how far one is from another. */
  function Sum32(h: nat, s: int): nat { (h + s % WORD) % WORD }
  function Gap(a: int, b: int): nat { (a - b) % WORD }

  lemma GapMoves(h: nat, k: nat, s: int, t: int)
    ensures Gap(Sum32(h, s), Sum32(k, t)) == (h - k + (s - t)) % WORD
  {
    ModSum(h, s);
    ModSum(k, t);
    ModDifference(h + s, k + t);
    assert (h + s) - (k + t) == h - k + (s - t);
  }

  lemma SameStart(h: nat, s: int, t: int)
    ensures Gap(Sum32(h, s), Sum32(h, t)) == Gap(s, t)
  {
    GapMoves(h, h, s, t);
    hide Sum32;
  }

  lemma SameStep(h: nat, k: nat, s: int)
    ensures Gap(Sum32(h, s), Sum32(k, s)) == Gap(h, k)
  {
    GapMoves(h, k, s, s);
    hide Sum32;
  }

  lemma ModDifference(a: int, b: int)
    ensures (a % WORD - b % WORD) % WORD == (a - b) % WORD
  {
    var c := a % WORD - b % WORD;
    Arithmetic.DivModIs(a - b, WORD, a / WORD - b / WORD + c / WORD, c % WORD);
  }

  lemma ShareAdds(digest: (Name, Value) -> nat, w: World, i: nat)
    ensures HashBelow(digest, w, i + 1) == Sum32(HashBelow(digest, w, i), Share(digest, At(w, i)))
  {
    InWord(digest, w, i);
    hide At;
  }

  lemma {:induction false} PlaceMoves(digest: (Name, Value) -> nat, w: World, v: World, i: nat, n: nat)
    requires i < n && forall k: nat :: k != i ==> At(w, k) == At(v, k)
    ensures Gap(HashBelow(digest, v, n), HashBelow(digest, w, n)) == Gap(Share(digest, At(v, i)), Share(digest, At(w, i)))
    decreases n
  {
    hide *;
    ShareAdds(digest, w, n - 1);
    ShareAdds(digest, v, n - 1);
    if i == n - 1 {
      HashBelowSame(digest, w, v, i);
      SameStart(HashBelow(digest, w, i), Share(digest, At(v, i)), Share(digest, At(w, i)));
    } else {
      PlaceMoves(digest, w, v, i, n - 1);
      SameStep(HashBelow(digest, v, n - 1), HashBelow(digest, w, n - 1), Share(digest, At(w, n - 1)));
    }
  }

  /** One object becomes another: the hash moves by exactly what id, frequency, saved members and fires differ in. */
  lemma ChangeMovesHash(digest: (Name, Value) -> nat, w: World, i: nat, o: Obj)
    requires At(w, i).Some?
    ensures var was, v := At(w, i).value, w.(table := w.table[i := Some(o)]);
      var moved := (o.id - was.id) + (o.freq - was.freq) + (digest(o.kind, o.members) - digest(was.kind, was.members)) + (o.fires - was.fires);
      && (Hash(digest, v) - Hash(digest, w)) % WORD == moved % WORD
      && (Hash(digest, v) == Hash(digest, w) <==> moved % WORD == 0)
  {
    var v := w.(table := w.table[i := Some(o)]);
    PlaceMoves(digest, w, v, i, |w.table|);
    InWord(digest, w, |w.table|);
    InWord(digest, v, |w.table|);
    hide HashBelow;
    SameWord(Hash(digest, v), Hash(digest, w));
  }

  lemma SameWord(h: nat, k: nat)
    requires h < WORD && k < WORD
    ensures h == k <==> (h - k) % WORD == 0
  {}

  /** A live object is taken out: the hash is lower by its share. */
  lemma DeathMovesHash(digest: (Name, Value) -> nat, w: World, i: nat)
    requires At(w, i).Some?
    ensures var o, v := At(w, i).value, w.(table := w.table[i := None]);
      (Hash(digest, w) - Hash(digest, v)) % WORD == (o.id + o.freq + digest(o.kind, o.members) + o.fires) % WORD
  {
    PlaceMoves(digest, w.(table := w.table[i := None]), w, i, |w.table|);
    hide HashBelow;
  }

  /** Without objects the hash is 0. */
  lemma {:induction false} NothingHashesToZero(digest: (Name, Value) -> nat, w: World, n: nat)
    requires forall i :: 0 <= i < |w.table| ==> w.table[i].None?
    ensures HashBelow(digest, w, n) == 0 && Hash(digest, w) == HashBelow(digest, w, |w.table|)
  {
    if n > 0 { NothingHashesToZero(digest, w, n - 1); }
  }

  // ----- what saving and loading make of it

  function FiresBelow(w: World, n: nat): nat {
    if n == 0 then 0 else FiresBelow(w, n - 1) + (if At(w, n - 1).None? then 0 else At(w, n - 1).value.fires)
  }

  function Fires(w: World): nat {
    FiresBelow(w, |w.table|)
  }

  lemma {:induction false} NothingAbove(digest: (Name, Value) -> nat, w: World, n: nat)
    requires n >= |w.table|
    ensures HashBelow(digest, w, n) == Hash(digest, w) && FiresBelow(w, n) == Fires(w)
    decreases n
  {
    if n > |w.table| { NothingAbove(digest, w, n - 1); }
  }

  /** Remainders add up. */
  lemma ModSum(a: int, b: int)
    ensures (a % WORD + b % WORD) % WORD == (a + b) % WORD && (a + b % WORD) % WORD == (a + b) % WORD
    ensures (a % WORD + b) % WORD == (a + b) % WORD
  {
    ModDrop(a, b % WORD);
    ModDrop(b, a);
    ModDrop(a, b);
  }

  lemma ModDrop(a: int, b: int)
    ensures (a % WORD + b) % WORD == (a + b) % WORD
  {
    var s := a % WORD + b;
    Arithmetic.DivModIs(a + b, WORD, a / WORD + s / WORD, s % WORD);
  }

  lemma GapAdds(h: nat, k: nat, f: nat, s: int, fires: nat)
    requires Gap(h, k) == f % WORD
    ensures Gap(Sum32(h, s + fires), Sum32(k, s)) == (f + fires) % WORD
  {
    GapMoves(h, k, s + fires, s);
    ModSum(h - k, fires);
    ModSum(f, fires);
    hide Sum32;
  }

  /** Object by object, only the fires are missing from the hash of the restored world. */
  lemma {:induction false} HashWithoutFires(digest: (Name, Value) -> nat, w: World, n: nat)
    requires forall i: nat :: i > w.id ==> At(w, i).None?
    ensures Gap(HashBelow(digest, w, n), HashBelow(digest, Restored(w), n)) == FiresBelow(w, n) % WORD
    decreases n
  {
    hide Restored, Gap, Sum32, HashBelow;
    if n == 0 {
      NoGap(digest, w);
    } else {
      var i := n - 1;
      HashWithoutFires(digest, w, i);
      AtRestored(w, i);
      ShareAdds(digest, w, i);
      ShareAdds(digest, Restored(w), i);
      var fires := if At(w, i).None? then 0 else At(w, i).value.fires;
      GapAdds(HashBelow(digest, w, i), HashBelow(digest, Restored(w), i), FiresBelow(w, i), Share(digest, At(Restored(w), i)), fires);
    }
  }

  lemma NoGap(digest: (Name, Value) -> nat, w: World)
    ensures Gap(HashBelow(digest, w, 0), HashBelow(digest, Restored(w), 0)) == 0
  {}

  lemma AtRestored(w: World, i: nat)
    requires i > w.id ==> At(w, i).None?
    ensures At(Restored(w), i) == Doused(At(w, i))
  {}

  lemma {:induction false} InWord(digest: (Name, Value) -> nat, w: World, n: nat)
    ensures HashBelow(digest, w, n) < WORD
  {
    if n > 0 { InWord(digest, w, n - 1); }
  }

  /** Saving and loading keeps the hash, exactly when the burning holders count to nothing in 32 bits. */
  lemma LoadKeepsHash(cs: Classes, digest: (Name, Value) -> nat, w: World)
    requires WellFormed(cs, w)
    ensures Hash(digest, Restored(w)) == Hash(digest, w) <==> Fires(w) % WORD == 0
  {
    var v := Restored(w);
    var n := |w.table| + |v.table|;
    forall i: nat | i > w.id ensures At(w, i).None? {
      assert i < |w.table| && w.table[i].Some? ==> GoodObject(cs, w, i, w.table[i].value);
    }
    HashWithoutFires(digest, w, n);
    NothingAbove(digest, w, n);
    NothingAbove(digest, v, n);
    InWord(digest, w, n);
    InWord(digest, v, n);
    hide WellFormed, Restored, HashBelow, FiresBelow;
    SameWord(Hash(digest, w), Hash(digest, v));
  }

  /** One object with one burning holder. */
  function Burning(): World {
    World([None, Some(Obj(OTHER, 1, 0, Bool(false), {}, 1))], 2, 0)
  }

  /** Its save loads into a world with another hash, however members are hashed. */
  lemma BurningChangesHash(digest: (Name, Value) -> nat)
    ensures WellFormed(TINY, Burning()) && Hash(digest, Restored(Burning())) != Hash(digest, Burning())
  {
    TinyIsValid();
    assert SerialFormat.Pow256(4) == 0x1_0000_0000 && SerialFormat.Pow256(3) == 0x100_0000;
    LoadKeepsHash(TINY, digest, Burning());
    assert FiresBelow(Burning(), 2) == FiresBelow(Burning(), 1) + 1;
  }

  /** A restored world saves to the same bytes. */
  lemma SaveAgain(cs: Classes, w: World)
    requires WellFormed(cs, w)
    ensures Save(Restored(w)) == Save(w)
  {
    SameFrom(cs, w, 1);
    hide SaveFrom;
  }

  lemma {:induction false} SameFrom(cs: Classes, w: World, i: nat)
    requires WellFormed(cs, w) && 1 <= i
    ensures SaveFrom(Restored(w), i) == SaveFrom(w, i)
    decreases |w.table| + w.id + 1 - i
  {
    hide EncodeText, Encode, EncodeInt32, EncodeUInt32, GoodObject, END_TYPE;
    var v := Restored(w);
    if i < |w.table| + w.id + 1 {
      SameFrom(cs, w, i + 1);
      if At(w, i).Some? {
        LiveBelow(cs, w, i);
      } else {
        NothingFrom(w, i);
        NothingFrom(v, i);
      }
    }
  }

  lemma LiveBelow(cs: Classes, w: World, i: nat)
    requires WellFormed(cs, w) && At(w, i).Some?
    ensures i < w.id
  {
    assert GoodObject(cs, w, i, w.table[i].value);
  }

  /** Where no object is, nothing is saved. */
  lemma NothingFrom(w: World, i: nat)
    requires At(w, i).None?
    ensures SaveFrom(w, i) == SaveFrom(w, i + 1)
  {}
}
