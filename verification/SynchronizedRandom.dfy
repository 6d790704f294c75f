/** The random numbers every client draws alike (sources/core/SynchronizedRandom.cpp): saved as a seed and a number of
    draws, and put back by drawing that often again. The engine itself is a parameter.
 */
module SynchronizedRandom {

  const WORD := 0x1_0000_0000

  /** A deterministic engine: its state after seeding, and one draw. */
  datatype Engine<!S> = Engine(seeded: nat -> S, draw: S -> (nat, S))

  function Discard<S>(e: Engine<S>, s: S, n: nat): S {
    if n == 0 then s else e.draw(Discard(e, s, n - 1)).1
  }

  /** The next `n` numbers. */
  function Stream<S>(e: Engine<S>, s: S, n: nat): seq<nat> {
    if n == 0 then [] else Stream(e, s, n - 1) + [e.draw(Discard(e, s, n - 1)).0]
  }

  class Random<S> {
    const engine: Engine<S>
    var seed: nat
    var callsCounter: nat
    var generator: S
    /** How often the generator has been used since it was seeded; the counter keeps 32 bits of it. */
    ghost var drawn: nat

    ghost predicate Valid()
      reads this
    {
      generator == Discard(engine, engine.seeded(seed), drawn) && callsCounter == drawn % WORD
    }

    constructor (e: Engine<S>, seed: nat)
      ensures Valid() && engine == e && this.seed == seed && drawn == 0
    {
      engine := e;
      this.seed := seed;
      callsCounter := 0;
      generator := e.seeded(seed);
      drawn := 0;
    }

    method Generate() returns (r: nat)
      requires Valid()
      modifies this
      ensures Valid() && seed == old(seed) && drawn == old(drawn) + 1
      ensures r == engine.draw(old(generator)).0
    {
      callsCounter := (callsCounter + 1) % WORD;
      var d := engine.draw(generator);
      r := d.0;
      generator := d.1;
      drawn := drawn + 1;
    }

    method SetParams(newSeed: nat, newCallsCounter: nat)
      requires newCallsCounter < WORD
      modifies this
      ensures Valid() && seed == newSeed && callsCounter == newCallsCounter && drawn == newCallsCounter
    {
      callsCounter := newCallsCounter;
      seed := newSeed;
      InsertParamsIntoGenerator();
    }

    /** Also what a load calls, once the seed and the counter are read. */
    method InsertParamsIntoGenerator()
      requires callsCounter < WORD
      modifies this`generator, this`drawn
      ensures Valid() && drawn == callsCounter
    {
      generator := engine.seeded(seed);
      for i := 0 to callsCounter
        invariant generator == Discard(engine, engine.seeded(seed), i)
      {
        generator := engine.draw(generator).1;
      }
      drawn := callsCounter;
    }
  }

  /** The state a load makes of what was saved after `drawn` draws. */
  function Reloaded<S>(e: Engine<S>, seed: nat, drawn: nat): S {
    Discard(e, e.seeded(seed), drawn % WORD)
  }

  /** The engine that counts: a draw tells how many came before. */
  function Counting(): Engine<nat> {
    Engine(_ => 0, s => (s, s + 1))
  }

  lemma {:induction false} Counted(s: nat, n: nat)
    ensures Discard(Counting(), s, n) == s + n
  {
    if n > 0 { Counted(s, n - 1); }
  }

  /** As long as fewer than 2^32 numbers were drawn a load continues the stream, whatever the engine; after that there
      are engines for which it does not. */
  lemma LoadContinuesStream<S>(e: Engine<S>, seed: nat, drawn: nat, n: nat)
    ensures drawn < WORD ==> Stream(e, Reloaded(e, seed, drawn), n) == Stream(e, Discard(e, e.seeded(seed), drawn), n)
    ensures drawn < WORD <==>
      Stream(Counting(), Reloaded(Counting(), seed, drawn), 1) == Stream(Counting(), Discard(Counting(), 0, drawn), 1)
  {
    Counted(0, drawn);
    Counted(0, drawn % WORD);
    assert Stream(Counting(), drawn, 1) == [drawn] by { assert Stream(Counting(), drawn, 0) == []; }
    assert Stream(Counting(), drawn % WORD, 1) == [drawn % WORD] by { assert Stream(Counting(), drawn % WORD, 0) == []; }
  }

  /** A stream goes on where it was left: its first numbers, and then those of the state after them. */
  lemma {:induction false} StreamSplit<S>(e: Engine<S>, s: S, m: nat, n: nat)
    ensures Stream(e, s, m + n) == Stream(e, s, m) + Stream(e, Discard(e, s, m), n)
    ensures Discard(e, s, m + n) == Discard(e, Discard(e, s, m), n)
  {
    if n > 0 { StreamSplit(e, s, m, n - 1); }
  }
}
