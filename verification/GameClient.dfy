/** The client half of the lockstep protocol (sources/client/Game.cpp).

    A client owns one copy of the world and one queue of server messages.  The
    world's own rules are not modelled: an `Engine` is any deterministic
    start-of-tick, per-message and end-of-tick function.
 */
module GameClient {

  datatype Reason = TooSlow | OutOfSync | ServerRestarting

  datatype Msg =
    | NewTick
    | NewClient(id: int)
    | Game(kind: int, from: int, body: string)
    | MapUpload(tick: int)
    | RequestHash(tick: int)
    | CurrentConnections(amount: int)
    | Ping(pingId: string)
    | Notice(reason: Reason)

  const ORDINARY := 1001
  const MESSAGE := 1002
  const MOUSE_CLICK := 1004
  const OOC_MESSAGE := 1005

  /** The messages a client keeps until the next tick; every other kind is
      handled at once or ignored. */
  predicate Queued(m: Msg) {
    || m.NewClient?
    || (m.Game? && m.kind in {ORDINARY, MESSAGE, MOUSE_CLICK, OOC_MESSAGE})
  }

  datatype World<W> = World(gameTick: int, state: W)

  datatype Engine<!W> = Engine(
    start: (int, W) -> W,
    message: (W, Msg) -> W,
    finish: W -> W,
    hash: (int, W) -> int)

  datatype Reply = Reply(tick: int, hash: int)

  /** What a client has become after some messages: its world, the messages
      waiting for the next tick, and what it sent back. */
  datatype Client<W> = Client(world: World<W>, pending: seq<Msg>, uploads: seq<World<W>>, replies: seq<Reply>)

  function Apply<W>(e: Engine<W>, w: W, ms: seq<Msg>): W {
    if ms == [] then w else e.message(Apply(e, w, ms[..|ms| - 1]), ms[|ms| - 1])
  }

  function Tick<W>(e: Engine<W>, w: World<W>, ms: seq<Msg>): World<W> {
    World(w.gameTick + 1, e.finish(Apply(e, e.start(w.gameTick + 1, w.state), ms)))
  }

  function Consume<W>(e: Engine<W>, c: Client<W>, m: Msg): Client<W> {
    if m.NewTick? then c.(world := Tick(e, c.world, c.pending), pending := [])
    else if m.MapUpload? then c.(uploads := c.uploads + [c.world])
    else if m.RequestHash? then
      c.(replies := c.replies + [Reply(c.world.gameTick, e.hash(c.world.gameTick, c.world.state))])
    else if Queued(m) then c.(pending := c.pending + [m])
    else c
  }

  function ConsumeAll<W>(e: Engine<W>, c: Client<W>, ms: seq<Msg>): Client<W> {
    if ms == [] then c else Consume(e, ConsumeAll(e, c, ms[..|ms| - 1]), ms[|ms| - 1])
  }

  function Fresh<W>(w: World<W>): Client<W> {
    Client(w, [], [], [])
  }

  /** A client that starts from `w` and reads `ms`. */
  function Replay<W>(e: Engine<W>, w: World<W>, ms: seq<Msg>): Client<W> {
    ConsumeAll(e, Fresh(w), ms)
  }

  lemma ConsumeOne<W>(e: Engine<W>, c: Client<W>, ms: seq<Msg>, m: Msg)
    ensures ConsumeAll(e, c, ms + [m]) == Consume(e, ConsumeAll(e, c, ms), m)
  {
    assert (ms + [m])[..|ms|] == ms;
  }

  lemma ConsumeNone<W>(e: Engine<W>, c: Client<W>)
    ensures ConsumeAll(e, c, []) == c
  {}

  lemma ApplyOne<W>(e: Engine<W>, w: W, ms: seq<Msg>, m: Msg)
    ensures Apply(e, w, ms + [m]) == e.message(Apply(e, w, ms), m)
  {
    assert (ms + [m])[..|ms|] == ms;
  }

  lemma {:induction false} ConsumeConcat<W>(e: Engine<W>, c: Client<W>, ms: seq<Msg>, ns: seq<Msg>)
    ensures ConsumeAll(e, c, ms + ns) == ConsumeAll(e, ConsumeAll(e, c, ms), ns)
  {
    if ns == [] {
      assert ms + ns == ms;
    } else {
      ConsumeConcat(e, c, ms, ns[..|ns| - 1]);
      assert (ms + ns)[..|ms + ns| - 1] == ms + ns[..|ns| - 1];
    }
  }

  // ----- what a tick does with the messages that waited for it

  /** The states the world goes through in a tick that hears `ms`. */
  ghost predicate Plays<W>(e: Engine<W>, w: World<W>, ms: seq<Msg>, ws: seq<W>) {
    && |ws| == |ms| + 1 && ws[0] == e.start(w.gameTick + 1, w.state)
    && forall i :: 0 <= i < |ms| ==> ws[i + 1] == e.message(ws[i], ms[i])
  }

  lemma {:induction false} PlaysOut<W>(e: Engine<W>, w: World<W>, ms: seq<Msg>, ws: seq<W>, n: nat)
    requires Plays(e, w, ms, ws) && n <= |ms|
    ensures Apply(e, ws[0], ms[..n]) == ws[n]
  {
    if n > 0 {
      PlaysOut(e, w, ms, ws, n - 1);
      assert ms[..n] == ms[..n - 1] + [ms[n - 1]];
      ApplyOne(e, ws[0], ms[..n - 1], ms[n - 1]);
    }
  }

  /** NEW_TICK starts the tick, plays every waiting message, the first one first, and finishes: nothing is left out,
      added or moved. */
  lemma TickPlaysAll<W>(e: Engine<W>, c: Client<W>, ws: seq<W>)
    requires Plays(e, c.world, c.pending, ws)
    ensures Consume(e, c, NewTick) == Client(World(c.world.gameTick + 1, e.finish(ws[|c.pending|])), [], c.uploads, c.replies)
  {
    PlaysOut(e, c.world, c.pending, ws, |c.pending|);
    assert c.pending[..|c.pending|] == c.pending;
  }

  /** Every tick can be played. */
  lemma {:induction false} SomethingPlays<W>(e: Engine<W>, w: World<W>, ms: seq<Msg>) returns (ws: seq<W>)
    ensures Plays(e, w, ms, ws)
  {
    if ms == [] {
      ws := [e.start(w.gameTick + 1, w.state)];
    } else {
      var n := |ms| - 1;
      ws := SomethingPlays(e, w, ms[..n]);
      ws := ws + [e.message(ws[n], ms[n])];
    }
  }

  /** The messages of `ns` that the world hears: new clients, and orders, chat, clicks and remarks of players. */
  function Heard(ns: seq<Msg>): seq<Msg> {
    if ns == [] then []
    else
      var m := ns[|ns| - 1];
      Heard(ns[..|ns| - 1]) +
        if m.NewClient? || (m.Game? && (m.kind == 1001 || m.kind == 1002 || m.kind == 1004 || m.kind == 1005)) then [m] else []
  }

  /** What is read between two ticks waits in its order; the world stands still. */
  lemma {:induction false} ReadWaits<W>(e: Engine<W>, c: Client<W>, ns: seq<Msg>)
    requires forall m :: m in ns ==> !m.NewTick?
    ensures var d := ConsumeAll(e, c, ns); d.world == c.world && d.pending == c.pending + Heard(ns)
  {
    if ns != [] {
      var n := |ns| - 1;
      assert forall m :: m in ns[..n] ==> m in ns;
      assert ns[n] in ns;
      ReadWaits(e, c, ns[..n]);
    }
  }

  /** How many of `ns` ask for the world, or for its hash. */
  function MapRequests(ns: seq<Msg>): nat {
    if ns == [] then 0 else MapRequests(ns[..|ns| - 1]) + if ns[|ns| - 1].MapUpload? then 1 else 0
  }

  function HashRequests(ns: seq<Msg>): nat {
    if ns == [] then 0 else HashRequests(ns[..|ns| - 1]) + if ns[|ns| - 1].RequestHash? then 1 else 0
  }

  /** Between two ticks every request is answered once, with the world as the last tick left it and its own hash. */
  lemma {:induction false} ReadAnswers<W>(e: Engine<W>, c: Client<W>, ns: seq<Msg>)
    requires forall m :: m in ns ==> !m.NewTick?
    ensures var d := ConsumeAll(e, c, ns);
      && d.uploads == c.uploads + seq(MapRequests(ns), _ => c.world)
      && d.replies == c.replies + seq(HashRequests(ns), _ => Reply(c.world.gameTick, e.hash(c.world.gameTick, c.world.state)))
  {
    if ns != [] {
      var n := |ns| - 1;
      assert forall m :: m in ns[..n] ==> m in ns;
      assert ns[n] in ns;
      ReadAnswers(e, c, ns[..n]);
      ReadWaits(e, c, ns[..n]);
    }
  }

  /** From one NEW_TICK to the next: a client plays exactly the messages meant for the world, in the server's order. */
  lemma TickHears<W>(e: Engine<W>, c: Client<W>, ns: seq<Msg>, ws: seq<W>)
    requires (forall m :: m in ns ==> !m.NewTick?) && Plays(e, c.world, c.pending + Heard(ns), ws)
    ensures var d := ConsumeAll(e, c, ns + [NewTick]);
      d.world == World(c.world.gameTick + 1, e.finish(ws[|c.pending + Heard(ns)|])) && d.pending == []
  {
    ReadWaits(e, c, ns);
    ConsumeOne(e, c, ns, NewTick);
    TickPlaysAll(e, ConsumeAll(e, c, ns), ws);
  }

  /** A player's message of each kind that is kept is heard. */
  lemma {:induction false} GameIsHeard(ns: seq<Msg>, kind: int, from: int, body: string)
    requires kind == 1001 || kind == 1002 || kind == 1004 || kind == 1005
    ensures Game(kind, from, body) in ns <==> Game(kind, from, body) in Heard(ns)
  {
    if ns != [] {
      var n := |ns| - 1;
      GameIsHeard(ns[..n], kind, from, body);
      assert ns == ns[..n] + [ns[n]];
    }
  }

  /** The client object: a message queue, the messages kept for the next tick,
      a world, and the traffic it produced. */
  class GameThread<W> {
    const engine: Engine<W>
    var queue: seq<Msg>
    var messagesToProcess: seq<Msg>
    var world: World<W>
    var processIn: bool
    var sentMaps: seq<World<W>>
    var sentHashes: seq<Reply>

    constructor (engine: Engine<W>, world: World<W>)
      ensures this.engine == engine && View() == Fresh(world) && queue == [] && !processIn
    {
      this.engine := engine;
      this.world := world;
      queue, messagesToProcess, processIn, sentMaps, sentHashes := [], [], false, [], [];
    }

    ghost function View(): Client<W>
      reads this
    {
      Client(world, messagesToProcess, sentMaps, sentHashes)
    }

    /** Reads the queue up to and including the next NEW_TICK, or to its end. */
    method ProcessInputMessages() returns (ghost taken: seq<Msg>)
      requires !processIn
      modifies this
      ensures old(queue) == taken + queue
      ensures processIn <==> taken != [] && taken[|taken| - 1].NewTick?
      ensures !processIn ==> queue == []
      ensures View() == ConsumeAll(engine, old(View()), if processIn then taken[..|taken| - 1] else taken)
    {
      hide ConsumeAll, Tick;
      taken := [];
      assert View() == ConsumeAll(engine, old(View()), taken) by { ConsumeNone(engine, View()); }
      while queue != []
        invariant old(queue) == taken + queue
        invariant !processIn
        invariant taken != [] ==> !taken[|taken| - 1].NewTick?
        invariant View() == ConsumeAll(engine, old(View()), taken)
        decreases |queue|
      {
        var msg := queue[0];
        ConsumeOne(engine, old(View()), taken, msg);
        queue, taken := queue[1..], taken + [msg];
        if msg.NewTick? {
          processIn := true;
          assert taken[..|taken| - 1] == taken[..|taken| - 1] + [];
          break;
        }
        if msg.MapUpload? {
          sentMaps := sentMaps + [world];
          continue;
        }
        if msg.RequestHash? {
          sentHashes := sentHashes + [Reply(world.gameTick, engine.hash(world.gameTick, world.state))];
          continue;
        }
        if Queued(msg) {
          messagesToProcess := messagesToProcess + [msg];
          continue;
        }
      }
    }

    /** One tick of the world over the messages that waited for it. */
    method RunTick()
      modifies this`messagesToProcess, this`world
      ensures View() == Consume(engine, old(View()), NewTick)
      ensures messagesToProcess == []
      ensures forall ws :: Plays(engine, old(world), old(messagesToProcess), ws) ==>
        world == World(old(world).gameTick + 1, engine.finish(ws[|old(messagesToProcess)|]))
    {
      ghost var c := View();
      var waiting := messagesToProcess;
      var w := engine.start(world.gameTick + 1, world.state);
      ghost var w0 := w;
      for i := 0 to |waiting|
        invariant w == Apply(engine, w0, waiting[..i])
        invariant View() == old(View())
      {
        ApplyOne(engine, w0, waiting[..i], waiting[i]);
        assert waiting[..i] + [waiting[i]] == waiting[..i + 1];
        w := engine.message(w, waiting[i]);
      }
      assert waiting[..|waiting|] == waiting;
      messagesToProcess := [];
      world := World(world.gameTick + 1, engine.finish(w));
      forall ws | Plays(engine, c.world, c.pending, ws)
        ensures world == World(c.world.gameTick + 1, engine.finish(ws[|c.pending|]))
      {
        TickPlaysAll(engine, c, ws);
      }
    }

    /** One round of the main loop: drain the queue, then run a tick if one was read. */
    method ProcessRound() returns (ghost taken: seq<Msg>)
      requires !processIn
      modifies this
      ensures !processIn
      ensures old(queue) == taken + queue
      ensures View() == ConsumeAll(engine, old(View()), taken)
      ensures queue == [] || (taken != [] && taken[|taken| - 1].NewTick?)
    {
      taken := ProcessInputMessages();
      if processIn {
        RunTick();
      }
      processIn := false;
    }

    /** However the server's messages are split into arrivals, a client that
        keeps running rounds until its queue is empty has consumed them all. */
    method CatchUp(arrived: seq<Msg>)
      requires !processIn
      modifies this
      ensures !processIn && queue == []
      ensures View() == ConsumeAll(engine, old(View()), old(queue) + arrived)
    {
      hide ConsumeAll, Consume;
      ConsumeNone(engine, View());
      queue := queue + arrived;
      ghost var all := queue;
      ghost var done: seq<Msg> := [];
      while queue != []
        invariant !processIn
        invariant all == done + queue
        invariant View() == ConsumeAll(engine, old(View()), done)
        decreases |queue|
      {
        ghost var before := done;
        var taken := ProcessRound();
        ConsumeConcat(engine, old(View()), before, taken);
        done := done + taken;
      }
      assert done == all;
    }
  }
}
