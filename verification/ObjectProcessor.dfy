/** The list of objects that are processed every so many ticks (sources/core/objects/ObjectProcessor.cpp:10-55), while
    the objects it calls make, delete and register others.
 */
module ObjectProcessor {
  import Arithmetic
  import opened CppInt
  import opened Sequences

  /** What an object does while it is processed. */
  datatype Effect = Freq(id: nat, freq: int) | Make(id: nat) | Kill(id: nat)

  /** The list, its lookup set, and the live objects with their frequencies. */
  datatype Processor = Processor(objects: seq<nat>, lookup: set<nat>, freqs: map<nat, int>)

  /** Object number `id`, called at place `place` of the list. */
  type Reaction = (nat, nat) -> seq<Effect>

  function Add(p: Processor, id: nat): Processor {
    if id in p.lookup then p else p.(lookup := p.lookup + {id}, objects := p.objects + [id])
  }

  /** Object::SetFreq. */
  function SetFreq(p: Processor, id: nat, freq: int): Processor {
    if id !in p.freqs then p
    else
      var q := p.(freqs := p.freqs[id := freq]);
      if freq != 0 then Add(q, id) else q
  }

  function React(p: Processor, e: Effect): Processor {
    match e
    case Freq(id, freq) => SetFreq(p, id, freq)
    case Make(id) => if id in p.freqs then p else p.(freqs := p.freqs[id := 0])
    case Kill(id) => p.(freqs := p.freqs - {id})
  }

  function ReactAll(p: Processor, es: seq<Effect>): Processor {
    if es == [] then p else React(ReactAll(p, es[..|es| - 1]), es[|es| - 1])
  }

  predicate Stale(p: Processor, id: nat) {
    id !in p.freqs || p.freqs[id] == 0
  }

  predicate Due(p: Processor, tick: int, id: nat) {
    id in p.freqs && p.freqs[id] != 0 && Mod(tick, p.freqs[id]) == 0
  }

  // ----- on which ticks an object is called

  lemma Exact(f: int, q: int)
    requires f != 0
    ensures Mod(f * q, f) == 0
  {
    var a, n := if f * q >= 0 then f * q else -(f * q), if f > 0 then f else -f;
    var r := if (f * q >= 0) == (f > 0) then q else -q;
    assert a == n * r;
    Arithmetic.DivModIs(a, n, r, 0);
  }

  lemma Multiple(tick: int, f: int)
    requires f != 0
    ensures Mod(tick, f) == 0 <==> exists q :: tick == f * q
  {
    if Mod(tick, f) == 0 {
      assert tick == f * Div(tick, f);
    }
    if q :| tick == f * q { Exact(f, q); }
  }

  /** An object is due on the multiples of its frequency, and one without a frequency never. */
  lemma DueOnMultiples(p: Processor, tick: int, id: nat)
    ensures Due(p, tick, id) <==> id in p.freqs && p.freqs[id] != 0 && exists q :: tick == p.freqs[id] * q
  {
    if id in p.freqs && p.freqs[id] != 0 { Multiple(tick, p.freqs[id]); }
  }

  /** So of as many ticks in a row as its frequency says it is due on exactly one. */
  lemma DueOncePerPeriod(p: Processor, start: int, id: nat)
    requires id in p.freqs && p.freqs[id] > 0
    ensures exists t :: start <= t < start + p.freqs[id] && Due(p, t, id)
    ensures forall t, u :: start <= t < start + p.freqs[id] && start <= u < start + p.freqs[id] && Due(p, t, id) && Due(p, u, id) ==> t == u
  {
    var f := p.freqs[id];
    var q := (start + f - 1) / f;
    var next := f * q;
    assert start + f - 1 == f * q + (start + f - 1) % f;
    DueOnMultiples(p, next, id);
    forall t, u | start <= t < start + f && start <= u < start + f && Due(p, t, id) && Due(p, u, id) ensures t == u {
      DueOnMultiples(p, t, id);
      DueOnMultiples(p, u, id);
      var a :| t == f * a;
      var b :| u == f * b;
      Arithmetic.NoMultiple(f, a - b);
      assert f * (a - b) == f * a - f * b;
    }
  }

  /** Take the entry at a place out: the last one moves there. */
  function Drop(p: Processor, place: nat): Processor
    requires place < |p.objects|
  {
    p.(lookup := p.lookup - {p.objects[place]}, objects := SwapOut(p.objects, place))
  }

  ghost predicate Inv(p: Processor) {
    && Distinct(p.objects)
    && p.lookup == (set id | id in p.objects)
    && forall id :: id in p.freqs && p.freqs[id] != 0 ==> id in p.lookup
  }

  /** The call of the object at a place, if it is due. */
  function Call(p: Processor, tick: int, react: Reaction, place: nat): (q: Processor)
    requires place < |p.objects|
    ensures p.objects <= q.objects
  {
    var id := p.objects[place];
    ReactGrows(p, react(id, place));
    if Due(p, tick, id) then ReactAll(p, react(id, place)) else p
  }

  /** The run from place `i` on: the processor after it, and whom it called. It ends with the first stale entry. */
  function Run(p: Processor, tick: int, react: Reaction, i: nat, end: nat): (Processor, seq<nat>)
    requires end <= |p.objects|
    decreases end - i
  {
    if i >= end then (p, [])
    else if Stale(p, p.objects[i]) then (Drop(p, i), [])
    else
      var r := Run(Call(p, tick, react, i), tick, react, i + 1, end);
      (r.0, if Due(p, tick, p.objects[i]) then [p.objects[i]] + r.1 else r.1)
  }

  lemma {:induction false} ReactGrows(p: Processor, es: seq<Effect>)
    ensures p.objects <= ReactAll(p, es).objects
  {
    if es != [] { ReactGrows(p, es[..|es| - 1]); }
  }

  // ----- list, set and objects agree

  lemma ReactKeeps(p: Processor, e: Effect)
    requires Inv(p)
    ensures Inv(React(p, e))
  {
    var q := React(p, e);
    assert forall id :: id in p.objects <==> id in p.lookup;
    assert forall id :: id in q.objects <==> id in p.objects || (id in q.lookup && id !in p.lookup);
  }

  lemma {:induction false} ReactAllKeeps(p: Processor, es: seq<Effect>)
    requires Inv(p)
    ensures Inv(ReactAll(p, es))
  {
    hide Inv, React;
    if es != [] {
      ReactAllKeeps(p, es[..|es| - 1]);
      ReactKeeps(ReactAll(p, es[..|es| - 1]), es[|es| - 1]);
    }
  }

  lemma DropKeeps(p: Processor, place: nat)
    requires Inv(p) && place < |p.objects| && Stale(p, p.objects[place])
    ensures Inv(Drop(p, place))
    ensures forall id :: id in Drop(p, place).objects <==> id in p.objects && id != p.objects[place]
  {
    SwapOutSet(p.objects, place);
  }

  /** However the objects react, list and lookup set agree, and every live object with a frequency is listed. */
  lemma {:induction false} RunKeeps(p: Processor, tick: int, react: Reaction, i: nat, end: nat)
    requires Inv(p) && end <= |p.objects|
    ensures Inv(Run(p, tick, react, i, end).0)
    decreases end - i
  {
    hide Inv, Stale, Due, Drop, Call;
    if i < end {
      if Stale(p, p.objects[i]) {
        DropKeeps(p, i);
      } else {
        CallKeeps(p, tick, react, i);
        RunKeeps(Call(p, tick, react, i), tick, react, i + 1, end);
      }
    }
  }

  lemma CallKeeps(p: Processor, tick: int, react: Reaction, place: nat)
    requires Inv(p) && place < |p.objects|
    ensures Inv(Call(p, tick, react, place))
  {
    hide Inv, ReactAll;
    ReactAllKeeps(p, react(p.objects[place], place));
  }

  // ----- where a run stops

  /** The processor when a run that is at place `i` gets to place `k`. */
  function Reached(p: Processor, tick: int, react: Reaction, i: nat, k: nat): (q: Processor)
    requires i <= k <= |p.objects|
    ensures p.objects <= q.objects
    decreases k - i
  {
    if i == k then p else Reached(Call(p, tick, react, i), tick, react, i + 1, k)
  }

  /** The first place from `i` on whose entry is stale when it is reached, or the end. */
  function Stop(p: Processor, tick: int, react: Reaction, i: nat, end: nat): (k: nat)
    requires i <= end <= |p.objects|
    ensures i <= k <= end
    decreases end - i
  {
    if i == end then end
    else if Stale(p, p.objects[i]) then i
    else Stop(Call(p, tick, react, i), tick, react, i + 1, end)
  }

  /** However the objects react, a run takes out exactly the entry it stops at, and if it gets to the end none. */
  lemma {:induction false} RunStops(p: Processor, tick: int, react: Reaction, i: nat, end: nat)
    requires i <= end <= |p.objects|
    ensures var k := Stop(p, tick, react, i, end);
      var q := Reached(p, tick, react, i, k);
      && (k < end ==> Stale(q, p.objects[k]))
      && Run(p, tick, react, i, end).0 == (if k < end then Drop(q, k) else q)
    decreases end - i
  {
    hide Stale, Due, Drop, Call;
    if i < end && !Stale(p, p.objects[i]) {
      RunStops(Call(p, tick, react, i), tick, react, i + 1, end);
    }
  }

  lemma {:induction false} CalledAreListed(p: Processor, tick: int, react: Reaction, i: nat, end: nat)
    requires end <= |p.objects|
    ensures forall id :: id in Run(p, tick, react, i, end).1 ==> exists k :: i <= k < end && p.objects[k] == id
    decreases end - i
  {
    hide Stale, Due, Drop, Call;
    if i < end && !Stale(p, p.objects[i]) {
      var q := Call(p, tick, react, i);
      CalledAreListed(q, tick, react, i + 1, end);
      assert forall k :: 0 <= k < end ==> q.objects[k] == p.objects[k];
    }
  }

  /** However the objects react, an object is called exactly when the run gets past its place and it is due then. */
  lemma {:induction false} CalledIffReached(p: Processor, tick: int, react: Reaction, i: nat, j: nat, end: nat)
    requires Inv(p) && i <= j < end <= |p.objects|
    ensures p.objects[j] in Run(p, tick, react, i, end).1
      <==> j < Stop(p, tick, react, i, end) && Due(Reached(p, tick, react, i, j), tick, p.objects[j])
    decreases end - i
  {
    ListedOnce(p);
    hide Inv, Stale, Due, Drop, Call;
    if !Stale(p, p.objects[i]) {
      var q := Call(p, tick, react, i);
      CallKeeps(p, tick, react, i);
      CalledAreListed(q, tick, react, i + 1, end);
      assert forall k :: 0 <= k < end ==> q.objects[k] == p.objects[k];
      if i < j {
        CalledIffReached(q, tick, react, i + 1, j, end);
      }
    } else if i == j {
      StaleIsNotDue(p, tick, p.objects[i]);
    }
  }

  lemma ListedOnce(p: Processor)
    requires Inv(p)
    ensures forall i, j :: 0 <= i < j < |p.objects| ==> p.objects[i] != p.objects[j]
  {}

  lemma StaleIsNotDue(p: Processor, tick: int, id: nat)
    ensures Stale(p, id) ==> !Due(p, tick, id)
  {}

  // ----- who is called

  /** No effect sets the frequency of any of these ids, or kills it. */
  predicate Spares(es: seq<Effect>, ids: seq<nat>) {
    forall e :: e in es ==> e.Make? || e.id !in ids
  }

  /** The objects called from place `i` on spare those behind them up to place `j`; to others they do anything. */
  predicate Spared(p: Processor, react: Reaction, i: nat, j: nat)
    requires j < |p.objects|
  {
    forall k {:trigger p.objects[k]} :: i <= k < j ==> Spares(react(p.objects[k], k), p.objects[k + 1..j + 1])
  }

  lemma SparedFirst(p: Processor, react: Reaction, i: nat, j: nat)
    requires i < j < |p.objects| && Spared(p, react, i, j)
    ensures Spares(react(p.objects[i], i), p.objects[i + 1..j + 1])
  {
    hide Spares;
  }

  lemma SparedNext(p: Processor, q: Processor, react: Reaction, i: nat, j: nat)
    requires i < j < |p.objects| && Spared(p, react, i, j) && p.objects <= q.objects
    ensures Spared(q, react, i + 1, j)
  {
    hide Spares;
    forall k | i < k < j ensures Spares(react(q.objects[k], k), q.objects[k + 1..j + 1]) {
      assert q.objects[k + 1..j + 1] == p.objects[k + 1..j + 1] && q.objects[k] == p.objects[k];
    }
  }

  lemma {:induction false} SparedKeeps(p: Processor, es: seq<Effect>, ids: seq<nat>, tick: int)
    requires Spares(es, ids)
    ensures forall id :: id in ids ==> Stale(ReactAll(p, es), id) == Stale(p, id) && Due(ReactAll(p, es), tick, id) == Due(p, tick, id)
  {
    if es != [] {
      var n := |es| - 1;
      assert es[n] in es && forall e :: e in es[..n] ==> e in es;
      SparedKeeps(p, es[..n], ids, tick);
      var q := ReactAll(p, es[..n]);
      hide ReactAll;
      forall id | id in ids ensures Stale(React(q, es[n]), id) == Stale(q, id) && Due(React(q, es[n]), tick, id) == Due(q, tick, id) {
        OneSpares(q, es[n], id, tick);
      }
    }
  }

  lemma OneSpares(p: Processor, e: Effect, id: nat, tick: int)
    requires e.Make? || e.id != id
    ensures Stale(React(p, e), id) == Stale(p, id) && Due(React(p, e), tick, id) == Due(p, tick, id)
  {}

  /** A due object that those called before it spare is called in this tick exactly when no stale entry stands before
      it. */
  lemma {:induction false} CalledIff(p: Processor, tick: int, react: Reaction, i: nat, j: nat, end: nat)
    requires Inv(p) && i <= j < end <= |p.objects| && Due(p, tick, p.objects[j]) && Spared(p, react, i, j)
    ensures p.objects[j] in Run(p, tick, react, i, end).1 <==> forall k :: i <= k < j ==> !Stale(p, p.objects[k])
    decreases j - i
  {
    hide Inv, Due, Stale, Spared, Call, Run;
    ListedOnce(p);
    RunNext(p, tick, react, i, end, p.objects[j]);
    if i == j {
      StaleIsNotDue(p, tick, p.objects[j]);
    } else if !Stale(p, p.objects[i]) {
      var q := Call(p, tick, react, i);
      CallKeeps(p, tick, react, i);
      CallSpares(p, tick, react, i, j);
      SparedNext(p, q, react, i, j);
      assert q.objects[j] == p.objects[j];
      CalledIff(q, tick, react, i + 1, j, end);
    }
  }

  lemma RunNext(p: Processor, tick: int, react: Reaction, i: nat, end: nat, id: nat)
    requires i < end <= |p.objects|
    ensures Stale(p, p.objects[i]) ==> Run(p, tick, react, i, end).1 == []
    ensures !Stale(p, p.objects[i]) ==>
      (id in Run(p, tick, react, i, end).1 <==>
        (Due(p, tick, p.objects[i]) && id == p.objects[i]) || id in Run(Call(p, tick, react, i), tick, react, i + 1, end).1)
  {
    hide Due, Stale, Call, Drop;
  }

  lemma CallSpares(p: Processor, tick: int, react: Reaction, i: nat, j: nat)
    requires i < j < |p.objects| && Spared(p, react, i, j)
    ensures var q := Call(p, tick, react, i);
      && (forall k :: i < k <= j ==> q.objects[k] == p.objects[k])
      && (forall k :: i < k <= j ==> Stale(q, p.objects[k]) == Stale(p, p.objects[k]) && Due(q, tick, p.objects[k]) == Due(p, tick, p.objects[k]))
  {
    hide Stale, Due, ReactAll, Spares, Spared;
    SparedFirst(p, react, i, j);
    var later := p.objects[i + 1..j + 1];
    SparedKeeps(p, react(p.objects[i], i), later, tick);
    assert forall k :: i < k <= j ==> p.objects[k] == later[k - (i + 1)] && p.objects[k] in later;
  }

  /** Object 2 is due and not called: the deleted object 1 stands before it. */
  lemma MissedObject()
    ensures var p := Processor([1, 2], {1, 2}, map[2 := 1]);
      Inv(p) && Due(p, 0, 2) && 2 !in Run(p, 0, (id, place) => [], 0, 2).1
  {}

  // ----- how stale entries go

  /** The stale ids of a list. */
  function StaleIds(p: Processor): set<nat> {
    set id | id in p.objects && Stale(p, id)
  }

  /** An effect that leaves nobody without a frequency. */
  predicate Gentle(e: Effect) {
    e.Make? || (e.Freq? && e.freq != 0)
  }

  ghost predicate Tame(react: Reaction) {
    forall id, place, e :: e in react(id, place) ==> Gentle(e)
  }

  /** Who had a frequency has one, and whoever is new in the list has one. */
  ghost predicate Better(p: Processor, q: Processor) {
    && p.objects <= q.objects
    && (forall id :: !Stale(p, id) ==> !Stale(q, id))
    && (forall id :: id in q.objects && id !in p.objects ==> !Stale(q, id))
  }

  lemma {:induction false} GentleIsBetter(p: Processor, es: seq<Effect>)
    requires Inv(p) && forall e :: e in es ==> Gentle(e)
    ensures Better(p, ReactAll(p, es))
  {
    hide Stale;
    if es != [] {
      var n := |es| - 1;
      assert es[n] in es && forall e :: e in es[..n] ==> e in es;
      GentleIsBetter(p, es[..n]);
      ReactAllKeeps(p, es[..n]);
      OneIsBetter(ReactAll(p, es[..n]), es[n]);
      hide ReactAll, Inv, React, Gentle;
      var q, r := ReactAll(p, es[..n]), ReactAll(p, es);
      assert forall id :: id in p.objects ==> id in q.objects;
    }
  }

  lemma OneIsBetter(p: Processor, e: Effect)
    requires Inv(p) && Gentle(e)
    ensures Better(p, React(p, e))
  {}

  /** Of the entries that were stale, one at least is gone or has a frequency again after a run. */
  lemma {:induction false} RunHelps(p: Processor, tick: int, react: Reaction, i: nat, end: nat)
    requires Inv(p) && Tame(react) && i <= end <= |p.objects|
    requires forall k :: 0 <= k < i || end <= k < |p.objects| ==> !Stale(p, p.objects[k])
    ensures var q := Run(p, tick, react, i, end).0;
      StaleIds(q) <= StaleIds(p) && (StaleIds(p) != {} ==> StaleIds(q) != StaleIds(p))
    decreases end - i
  {
    hide Inv, Stale, Due, Drop, Call, Better, Tame;
    if i == end {
      assert StaleIds(p) == {};
    } else if Stale(p, p.objects[i]) {
      DropKeeps(p, i);
      DropSameFreqs(p, i);
      assert p.objects[i] in StaleIds(p) && p.objects[i] !in StaleIds(Drop(p, i));
    } else {
      var q := Call(p, tick, react, i);
      CallKeeps(p, tick, react, i);
      CallIsBetter(p, tick, react, i);
      ListedOnce(q);
      BetterPlaces(p, q, i, end);
      RunHelps(q, tick, react, i + 1, end);
      hide Run;
    }
  }

  lemma DropSameFreqs(p: Processor, place: nat)
    requires place < |p.objects|
    ensures forall id :: Stale(Drop(p, place), id) == Stale(p, id)
  {}

  lemma CallIsBetter(p: Processor, tick: int, react: Reaction, place: nat)
    requires Inv(p) && Tame(react) && place < |p.objects|
    ensures Better(p, Call(p, tick, react, place))
  {
    hide Inv, ReactAll, Due, Stale, Gentle;
    GentleIsBetter(p, react(p.objects[place], place));
  }

  lemma BetterPlaces(p: Processor, q: Processor, i: nat, end: nat)
    requires Better(p, q) && i < end <= |p.objects| && !Stale(p, p.objects[i])
    requires forall k :: 0 <= k < i || end <= k < |p.objects| ==> !Stale(p, p.objects[k])
    requires Distinct(q.objects)
    ensures forall k :: 0 <= k <= i || end <= k < |q.objects| ==> !Stale(q, q.objects[k])
    ensures StaleIds(q) <= StaleIds(p)
  {
    hide Stale;
    assert forall k :: 0 <= k < |p.objects| ==> q.objects[k] == p.objects[k];
    forall k | |p.objects| <= k < |q.objects| ensures q.objects[k] !in p.objects {}
  }

  /** The processor after some runs. */
  function Runs(p: Processor, turns: seq<(int, Reaction)>): Processor {
    if turns == [] then p
    else
      var q, turn := Runs(p, turns[..|turns| - 1]), turns[|turns| - 1];
      Run(q, turn.0, turn.1, 0, |q.objects|).0
  }

  /** As long as nobody loses its frequency or dies while objects are called, each run leaves at least one stale entry
      less, so after as many runs as there are none is left. */
  lemma {:induction false} StaleOnesGo(p: Processor, turns: seq<(int, Reaction)>)
    requires Inv(p) && forall n :: 0 <= n < |turns| ==> Tame(turns[n].1)
    ensures var q := Runs(p, turns);
      Inv(q) && |StaleIds(q)| <= (if |StaleIds(p)| > |turns| then |StaleIds(p)| - |turns| else 0)
  {
    hide Inv, Run, StaleIds, Tame;
    if turns != [] {
      var n := |turns| - 1;
      StaleOnesGo(p, turns[..n]);
      assert Tame(turns[n].1);
      var q := Runs(p, turns[..n]);
      RunKeeps(q, turns[n].0, turns[n].1, 0, |q.objects|);
      RunHelps(q, turns[n].0, turns[n].1, 0, |q.objects|);
      Smaller(StaleIds(Run(q, turns[n].0, turns[n].1, 0, |q.objects|).0), StaleIds(q));
    }
  }

  lemma {:induction false} Smaller(a: set<nat>, b: set<nat>)
    requires a <= b && (b != {} ==> a != b)
    ensures |a| <= |b| && (|b| > 0 ==> |a| < |b|)
  {
    if b != {} {
      var x :| x in b && x !in a;
      SubsetSize(a, b - {x});
    }
  }

  lemma {:induction false} SubsetSize(a: set<nat>, b: set<nat>)
    requires a <= b
    ensures |a| <= |b|
  {
    if exists x :: x in a {
      var x :| x in a;
      SubsetSize(a - {x}, b - {x});
    } else {
      assert a == {};
    }
  }
}
