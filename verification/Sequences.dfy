/** Lists without duplicates, and the swap with the last entry that takes one out. */
module Sequences {

  predicate Distinct<T(==)>(s: seq<T>) {
    forall i, j :: 0 <= i < j < |s| ==> s[i] != s[j]
  }

  /** The last entry moves to the place of the one that leaves. */
  function SwapOut<T>(s: seq<T>, place: nat): seq<T>
    requires place < |s|
  {
    s[place := s[|s| - 1]][..|s| - 1]
  }

  /** Exactly the entry at that place leaves. */
  lemma SwapOutSet<T>(s: seq<T>, place: nat)
    requires place < |s| && Distinct(s)
    ensures Distinct(SwapOut(s, place))
    ensures forall x :: x in SwapOut(s, place) <==> x in s && x != s[place]
  {
    var r := SwapOut(s, place);
    forall x | x in s && x != s[place] ensures x in r {
      var i :| 0 <= i < |s| && s[i] == x;
      assert if i == |s| - 1 then r[place] == x else r[i] == x;
    }
  }
}
