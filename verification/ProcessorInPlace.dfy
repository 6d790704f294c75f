/** The object processor as it changes its list in place (sources/core/objects/ObjectProcessor.cpp:10-55), against the
    model.
 */
module ProcessorInPlace {
  import opened CppInt
  import OP = ObjectProcessor

  /** A run, from one place to the next. */
  lemma RunUnfolds(p: OP.Processor, tick: int, react: OP.Reaction, i: nat, end: nat)
    requires i <= end <= |p.objects|
    ensures i == end ==> OP.Run(p, tick, react, i, end) == (p, [])
    ensures i < end && OP.Stale(p, p.objects[i]) ==> OP.Run(p, tick, react, i, end) == (OP.Drop(p, i), [])
    ensures i < end && !OP.Stale(p, p.objects[i]) ==>
      var id := p.objects[i];
      var q := OP.Call(p, tick, react, i);
      var r := OP.Run(q, tick, react, i + 1, end);
      && q == (if OP.Due(p, tick, id) then OP.ReactAll(p, react(id, i)) else p)
      && OP.Run(p, tick, react, i, end) == (r.0, if OP.Due(p, tick, id) then [id] + r.1 else r.1)
  {
    hide OP.ReactAll;
  }

  class ObjectProcessor {
    var objects: seq<nat>
    var lookup: set<nat>
    /** The live objects and their frequencies. */
    var freqs: map<nat, int>
    /** Whom the last run called. */
    ghost var called: seq<nat>

    ghost function View(): OP.Processor
      reads this
    {
      OP.Processor(objects, lookup, freqs)
    }

    constructor ()
      ensures View() == OP.Processor([], {}, map[]) && OP.Inv(View())
    {
      objects, lookup, freqs, called := [], {}, map[], [];
    }

    method Add(id: nat)
      modifies `objects, `lookup
      ensures View() == OP.Add(old(View()), id)
      ensures lookup == old(lookup) + {id} && objects == if id in old(lookup) then old(objects) else old(objects) + [id]
    {
      if id in lookup { return; }
      lookup := lookup + {id};
      objects := objects + [id];
    }

    method SetFreq(id: nat, freq: int)
      modifies `objects, `lookup, `freqs
      ensures View() == OP.SetFreq(old(View()), id, freq)
      ensures freqs == if id in old(freqs) then old(freqs)[id := freq] else old(freqs)
      ensures lookup == if id in old(freqs) && freq != 0 then old(lookup) + {id} else old(lookup)
    {
      if id !in freqs { return; }
      freqs := freqs[id := freq];
      if freq != 0 { Add(id); }
    }

    /** An object's Process. */
    method Process(effects: seq<OP.Effect>)
      modifies `objects, `lookup, `freqs
      ensures View() == OP.ReactAll(old(View()), effects)
    {
      for i := 0 to |effects|
        invariant View() == OP.ReactAll(old(View()), effects[..i])
      {
        assert effects[..i + 1][..i] == effects[..i];
        match effects[i] {
          case Freq(id, freq) => SetFreq(id, freq);
          case Make(id) => if id !in freqs { freqs := freqs[id := 0]; }
          case Kill(id) => freqs := freqs - {id};
        }
      }
      assert effects[..|effects|] == effects;
    }

    /** Note the early end: after one removal the run is over. */
    method RunProcess(tick: int, react: OP.Reaction)
      modifies this
      ensures var r := OP.Run(old(View()), tick, react, 0, |old(objects)|);
        View() == r.0 && called == r.1
    {
      hide OP.Run, OP.ReactAll;
      called := [];
      ghost var p := View();
      var end := |objects|;
      assert [] + OP.Run(p, tick, react, 0, end).1 == OP.Run(p, tick, react, 0, end).1;
      for i := 0 to end
        invariant end <= |objects|
        invariant var r := OP.Run(View(), tick, react, i, end);
          OP.Run(p, tick, react, 0, end) == (r.0, called + r.1)
      {
        ghost var before, sofar := View(), called;
        var id := objects[i];
        RunUnfolds(before, tick, react, i, end);
        if id !in freqs || freqs[id] == 0 {
          lookup := lookup - {id};
          objects := objects[i := objects[|objects| - 1]];
          objects := objects[..|objects| - 1];
          assert called + [] == called;
          return;
        }
        if Mod(tick, freqs[id]) == 0 {
          Process(react(id, i));
          called := called + [id];
          ghost var r := OP.Run(View(), tick, react, i + 1, end);
          assert sofar + ([id] + r.1) == called + r.1;
        }
      }
      RunUnfolds(View(), tick, react, end, end);
      assert called + [] == called;
    }

    /** After a load only the list is there. */
    method LoadObjectsPlaces()
      requires lookup == {} || lookup <= set id | id in objects
      modifies `lookup
      ensures lookup == set id | id in objects
    {
      for i := 0 to |objects|
        invariant (set id | id in objects[..i]) <= lookup <= (set id | id in objects)
      {
        lookup := lookup + {objects[i]};
      }
      assert objects[..|objects|] == objects;
    }
  }
}
