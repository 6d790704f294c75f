/** The registry as the server has it: one object whose handlers update its maps
    and channels in place.  Every handler is proved to do what the function of the
    same name in `RegistryModel` says; the choices the Go runtime made come back
    as ghost results.  `*` stands for what a handler cannot control: whether a
    channel has room at the moment of a send, and whether a deadline has passed.
 */
module RegistryServer {
  import opened GameClient
  import M = RegistryModel
  import opened RegistryInvariants
  import T = LockstepTheorems
  import opened HashChecks

  lemma {:induction false} RemoveAllOne<W>(s: M.State<W>, vs: seq<M.Evict>, v: M.Evict, reason: seq<Msg>)
    ensures M.RemoveAll(s, vs + [v], reason) == M.Remove(M.RemoveAll(s, vs, reason), v, reason)
    decreases |vs|
  {
    if vs == [] {
      assert M.RemoveAll(M.Remove(s, v, reason), [], reason) == M.Remove(s, v, reason);
      assert ([] + [v])[1..] == [];
    } else {
      assert (vs + [v])[1..] == vs[1..] + [v];
      RemoveAllOne(M.Remove(s, vs[0], reason), vs[1..], v, reason);
    }
  }

  lemma {:induction false} CheckHashesAppend<W>(s: M.State<W>, vs: seq<M.Visit>, v: M.Visit)
    ensures M.CheckHashes(s, vs + [v]) == M.CheckVisit(M.CheckHashes(s, vs), v)
    decreases |vs|
  {
    if vs == [] {
      assert M.CheckHashes(M.CheckVisit(s, v), []) == M.CheckVisit(s, v);
      assert ([] + [v])[1..] == [];
    } else {
      assert (vs + [v])[1..] == vs[1..] + [v];
      CheckHashesAppend(M.CheckVisit(s, vs[0]), vs[1..], v);
    }
  }

  lemma {:induction false} EvictRowsOne<W>(s: M.State<W>, unsynced: set<int>, rows: seq<M.Row>, r: M.Row)
    ensures M.EvictRows(s, unsynced, rows + [r]) == M.EvictRows(M.EvictRows(s, unsynced, rows), unsynced, [r])
    decreases |rows|
  {
    if rows == [] {
      assert [] + [r] == [r];
    } else {
      assert (rows + [r])[1..] == rows[1..] + [r];
      if rows[0].id !in unsynced {
        EvictRowsOne(s, unsynced, rows[1..], r);
      } else {
        var s1 := M.DumpMap(s, rows[0].id, rows[0].dump);
        EvictRowsOne(M.Remove(s1, rows[0].evict.(id := rows[0].id), [Notice(OutOfSync)]), unsynced, rows[1..], r);
      }
    }
  }

  lemma TargetsOf<W>(s: M.State<W>, ids: seq<int>, slow: seq<M.Evict>)
    requires |slow| == |ids| && forall k :: 0 <= k < |ids| ==> slow[k].id == ids[k]
    ensures M.Targets(s, slow) == set id | id in s.clients && id !in ids :: s.clients[id]
  {
    forall id ensures id in ids <==> exists v :: v in slow && v.id == id {
      if id in ids {
        var k :| 0 <= k < |ids| && ids[k] == id;
        assert slow[k] in slow;
      }
    }
  }

  function Given<W>(b: M.Inbox<W>, m: Msg): M.Inbox<W> {
    b.(sent := b.sent + [m])
  }

  ghost predicate Distinct<W>(s: M.State<W>) {
    && (forall id :: id in s.clients ==> s.clients[id] < |s.inboxes| && !s.inboxes[s.clients[id]].closed)
    && (forall id, k :: id in s.clients && k in s.clients && id != k ==> s.clients[id] != s.clients[k])
  }

  ghost function Half<W>(s: M.State<W>, todo: set<int>, dead: seq<int>, m: Msg, id: int): M.Inbox<W>
    requires Distinct(s) && id in s.clients
  {
    var b := s.inboxes[s.clients[id]];
    if id in todo || id in dead then b else Given(b, m)
  }

  /** Half-way through the first loop of sendAll: those in `todo` were not tried, those in `dead` were full. */
  ghost predicate Offering<W>(s: M.State<W>, channels: seq<M.Inbox<W>>, todo: set<int>, dead: seq<int>, m: Msg) {
    && Distinct(s) && |channels| == |s.inboxes| && (forall id :: id in dead ==> id !in todo)
    && (forall id :: id in s.clients ==> channels[s.clients[id]] == Half(s, todo, dead, m, id))
    && (forall i: nat :: i < |channels| && !Served(s, i) ==> channels[i] == s.inboxes[i])
  }

  lemma OwnInboxes<W>(s: M.State<W>)
    requires Wf(s)
    ensures Distinct(s) && forall m :: Offering(s, s.inboxes, s.clients.Keys, [], m)
  {
    forall id | id in s.clients ensures s.clients[id] < |s.inboxes| && !s.inboxes[s.clients[id]].closed {
      assert Live(s, s.clients[id]);
    }
  }

  lemma OfferStep<W>(s: M.State<W>, channels: seq<M.Inbox<W>>, todo: set<int>, dead: seq<int>, m: Msg, id: int)
    requires Offering(s, channels, todo, dead, m) && id in todo && id in s.clients
    ensures s.clients[id] < |channels|
    ensures Offering(s, channels[s.clients[id] := Given(channels[s.clients[id]], m)], todo - {id}, dead, m)
    ensures Offering(s, channels, todo - {id}, dead + [id], m)
  {}

  lemma BroadcastIs<W>(s: M.State<W>, m: Msg, dead: seq<int>, t: M.State<W>)
    requires t == s.(inboxes := t.inboxes) && Offering(s, t.inboxes, {}, dead, m)
    ensures t == M.Broadcast(s, m, set id | id in s.clients && id !in dead :: s.clients[id])
  {
    var to := set id | id in s.clients && id !in dead :: s.clients[id];
    forall i: nat | i < |s.inboxes|
      ensures t.inboxes[i] == if i in to then Given(s.inboxes[i], m) else s.inboxes[i]
    {
      if Served(s, i) { var id :| id in s.clients && s.clients[id] == i; }
    }
    assert t.inboxes == M.Broadcast(s, m, to).inboxes;
  }

  /** After removing the masters in `slow` one after the other, sendMaster goes on from `t`. */
  ghost predicate Continues<W>(s: M.State<W>, m: Msg, slow: seq<M.Evict>, t: M.State<W>) {
    forall rest :: M.LoopMaster(s, m, slow + rest) == M.LoopMaster(t, m, rest)
  }

  lemma Nothing<W>(s: M.State<W>, m: Msg)
    ensures Continues(s, m, [], s)
  {
    hide M.LoopMaster;
    forall rest ensures M.LoopMaster(s, m, [] + rest) == M.LoopMaster(s, m, rest) {
      assert [] + rest == rest;
    }
  }

  lemma LoopStep<W>(s: M.State<W>, m: Msg, slow: seq<M.Evict>, t: M.State<W>, v: M.Evict)
    requires Continues(s, m, slow, t) && t.masterID in t.clients && v.id == t.masterID
    ensures var u := M.Remove(t, v, [Notice(TooSlow)]);
      if u.masterID == -1 then M.LoopMaster(s, m, slow + [v]) == M.Failed(u) else Continues(s, m, slow + [v], u)
  {
    var u := M.Remove(t, v, [Notice(TooSlow)]);
    forall rest
      ensures M.LoopMaster(s, m, slow + [v] + rest) == if u.masterID == -1 then M.Failed(u) else M.LoopMaster(u, m, rest)
    {
      assert slow + [v] + rest == slow + ([v] + rest);
      assert ([v] + rest)[1..] == rest && v.(id := t.masterID) == v;
    }
    assert slow + [v] + [] == slow + [v];
  }

  lemma LoopSent<W>(s: M.State<W>, m: Msg, slow: seq<M.Evict>, t: M.State<W>)
    requires Continues(s, m, slow, t) && t.masterID in t.clients
    ensures M.LoopMaster(s, m, slow) == M.Sent(M.Put(t, t.clients[t.masterID], m))
  {
    assert slow + [] == slow;
    assert M.LoopMaster(s, m, slow + []) == M.LoopMaster(t, m, []);
  }

  /** invokeNextTickCallbacks, after the requests answered with `slow`, goes on from `t`. */
  ghost predicate Joins<W>(e: Engine<W>, s: M.State<W>, slow: seq<seq<M.Evict>>, t: M.State<W>) {
    forall rest :: M.JoinAll(e, s, s.callbacks, slow + rest) == M.JoinAll(e, t, t.callbacks, rest)
  }

  lemma JoinsNothing<W>(e: Engine<W>, s: M.State<W>)
    ensures Joins(e, s, [], s)
  {
    hide M.JoinAll;
    forall rest ensures M.JoinAll(e, s, s.callbacks, [] + rest) == M.JoinAll(e, s, s.callbacks, rest) {
      assert [] + rest == rest;
    }
  }

  lemma JoinsStep<W>(e: Engine<W>, s: M.State<W>, slow: seq<seq<M.Evict>>, t: M.State<W>, one: seq<M.Evict>)
    requires Joins(e, s, slow, t) && t.callbacks != [] && !t.status.Stuck?
    ensures Joins(e, s, slow + [one], JoinStep(e, t, one))
  {
    var u := JoinStep(e, t, one);
    forall rest ensures M.JoinAll(e, s, s.callbacks, slow + [one] + rest) == M.JoinAll(e, u, u.callbacks, rest) {
      assert slow + [one] + rest == slow + ([one] + rest);
      assert ([one] + rest)[1..] == rest;
      assert M.JoinAll(e, t, t.callbacks, [one] + rest) == M.JoinAll(e, u, u.callbacks, rest);
    }
  }

  lemma JoinsDone<W>(e: Engine<W>, s: M.State<W>, slow: seq<seq<M.Evict>>, t: M.State<W>)
    requires Joins(e, s, slow, t) && (t.callbacks == [] || t.status.Stuck?)
    ensures M.JoinAll(e, s, s.callbacks, slow) == t
  {
    assert slow + [] == slow;
    assert M.JoinAll(e, s, s.callbacks, slow + []) == M.JoinAll(e, t, t.callbacks, []);
    assert t.callbacks == [] ==> t.(callbacks := []) == t;
  }

  lemma TickSent<W>(e: Engine<W>, s: M.State<W>, slow: seq<M.Evict>)
    requires Wf(s)
    ensures var t := M.SendNewTick(s, slow); Wf(t) && t.status == s.status
  {
    var s0 := s.(currentTick := s.currentTick + 1);
    SameShape(s, s0);
    SendAllTold(e, s0, NewTick, slow);
    ToldKeeps(e, s0, NewTick, M.SendNewTick(s, slow));
  }

  lemma FirstWaits<W>(s: M.State<W>)
    requires Wf(s) && s.callbacks != []
    ensures s.callbacks[0].inbox < |s.inboxes| && s.inboxes[s.callbacks[0].inbox] == M.Inbox(s.callbacks[0].id, M.NotStarted, [], false)
  {
    assert Waiting(s, s.callbacks[0]);
  }

  lemma StillWaits<W>(e: Engine<W>, s: M.State<W>, slow: seq<M.Evict>)
    requires Wf(s) && s.status.Running? && s.callbacks != []
    ensures var t := M.SendMaster(s, MapUpload(s.currentTick), slow).state;
      && |t.inboxes| == |s.inboxes| && t.callbacks == s.callbacks && s.callbacks[0].inbox < |s.inboxes|
      && !t.inboxes[s.callbacks[0].inbox].closed
  {
    hide M.SendMaster;
    SendMasterCalm(e, s, MapUpload(s.currentTick), slow);
    FirstWaits(s);
    var r := M.SendMaster(s, MapUpload(s.currentTick), slow);
    assert !r.Hangs? ==> SameInbox(e, s.inboxes[s.callbacks[0].inbox], r.state.inboxes[s.callbacks[0].inbox]);
  }

  lemma RemovedMaster<W>(e: Engine<W>, s: M.State<W>, v: M.Evict)
    requires Wf(s) && s.masterID in s.clients && v.id == s.masterID
    ensures var t := M.Remove(s, v, [Notice(TooSlow)]);
      Wf(t) && t.status == s.status && |t.clients| < |s.clients| && (t.masterID == -1 || t.masterID in t.clients)
  {
    RemoveCalm(e, s, v, [Notice(TooSlow)]);
    var t := M.Remove(s, v, [Notice(TooSlow)]);
    assert t.clients.Keys == s.clients.Keys - {v.id};
    assert |t.clients.Keys| < |s.clients.Keys|;
  }

  /** With clients of which none is the master, removing the master changes nothing and the loop never ends. */
  lemma LoopHangs<W>(s: M.State<W>, m: Msg)
    requires s.clients != map[] && s.masterID !in s.clients && s.masterID != -1
    ensures M.SendMaster(s, m, []) == M.Hangs(s.(status := M.Stuck))
  {}

  /** The registry between the close of an inbox and the election. */
  ghost function Closed<W>(s: M.State<W>, id: int, told: bool, reason: seq<Msg>): M.State<W>
    requires id in s.clients
  {
    var s1 := if reason == [] then s else M.SendOne(s, id, reason[0], told);
    M.Close(s1, s.clients[id]).(clients := s.clients - {id})
  }

  lemma RemoveIs<W>(s: M.State<W>, v: M.Evict, reason: seq<Msg>)
    requires v.id in s.clients
    ensures var s2 := Closed(s, v.id, v.told, reason);
      var s3 := if s.masterID == v.id then s2.(masterID := M.Elect(s2.clients, v.heir)) else s2;
      && s2.masterID == s.masterID
      && M.Remove(s, v, reason) == if s3.masterID == -1 then M.CleanUp(s3) else s3
  {
    hide M.Elect;
  }

  lemma MoreRows(rows: seq<M.Row>, r: M.Row)
    ensures HasRow(rows + [r], r.id) && forall id :: HasRow(rows, id) ==> HasRow(rows + [r], id)
  {
    assert (rows + [r])[|rows|] == r;
    forall x | x in rows ensures x in rows + [r] {}
  }

  lemma NoRows<W>(s: M.State<W>, unsynced: set<int>)
    ensures M.EvictRows(s, unsynced, []) == s
  {}

  lemma NobodyDiffers<W>(e: Engine<W>, s: M.State<W>, c: M.Checker, v: M.Visit)
    requires Wf(s) && M.Unsynced(c, s.masterID) == {} && v.rows == []
    ensures Covers(c, s.masterID, []) && M.CheckHashesOne(s, c, v) == s
    ensures s.masterID != -1 && s.masterID in c.hashes ==> forall id :: id in c.hashes ==> c.hashes[id] == c.hashes[s.masterID]
  {
    forall id ensures !Differs(c, s.masterID, id) {
      assert id !in M.Unsynced(c, s.masterID);
    }
    assert s.masterID != -1 && s.masterID in c.hashes ==>
      forall id :: id in c.hashes && c.hashes[id] != c.hashes[s.masterID] ==> Differs(c, s.masterID, id);
    hide M.EvictRows, M.DumpMap, Wf;
  }

  lemma VisitChanges<W>(e: Engine<W>, s: M.State<W>, v: M.Visit)
    requires Wf(s) && (IsDue(s, v) ==> Covers(s.hashes[v.tick], s.masterID, v.rows))
    ensures var t := M.CheckVisit(s, v);
      && t.clients.Keys <= s.clients.Keys && (s.masterID in t.clients ==> t.masterID == s.masterID)
      && forall k :: k in s.hashes && k != v.tick ==> k in t.hashes && t.hashes[k] == s.hashes[k]
  {
    hide M.CheckVisit, Wf, Differs, Covers;
    VisitDecides(e, s, v);
    T.CheckVisitCalm(e, s, v);
  }

  lemma AfterAll<W>(e: Engine<W>, s: M.State<W>, vs: seq<M.Visit>)
    requires Wf(s) && AllCovered(s, vs) && s.masterID in M.CheckHashes(s, vs).clients
    requires forall t :: t in s.hashes ==> exists v :: v in vs && v.tick == t
    ensures var u := M.CheckHashes(s, vs);
      && (forall t, id :: t in s.hashes && s.hashes[t].waiting <= 0 && Differs(s.hashes[t], s.masterID, id) ==> id !in u.clients)
      && (forall id :: id in s.clients && id !in u.clients ==> exists t :: t in s.hashes && Differs(s.hashes[t], s.masterID, id))
  {
    hide Wf, Differs, M.CheckHashes, Covers;
    ChecksDropExactly(e, s, vs);
    Shrinks(e, s, vs);
    forall t, id | t in s.hashes && s.hashes[t].waiting <= 0 && Differs(s.hashes[t], s.masterID, id)
      ensures id !in M.CheckHashes(s, vs).clients
    {
      var v :| v in vs && v.tick == t;
      assert IsDue(s, v);
    }
  }

  class Registry<W> {
    const engine: Engine<W>
    var nextID: int
    var clients: map<int, nat>
    var players: map<string, M.Player>
    var masterID: int
    var hashes: map<int, M.Checker>
    var currentTick: int
    var nextTickCallbacks: seq<M.Joiner>
    var channels: seq<M.Inbox<W>>
    var session: nat  // history: how many worlds were started
    var hung: bool  // the event loop is inside a sendMaster that never ends

    constructor (engine: Engine<W>)
      ensures View() == M.Init() && this.engine == engine
    {
      this.engine := engine;
      nextID, clients, players, masterID := 1, map[], map[], -1;
      hashes, currentTick, nextTickCallbacks, channels, session := map[], 0, [], [], 0;
      hung := false;
    }

    function View(): M.State<W>
      reads this
    {
      M.State(nextID, clients, players, masterID, hashes, currentTick, nextTickCallbacks, channels, session,
        if hung then M.Stuck else M.Running)
    }

    method SendOne(id: int, m: Msg) returns (ok: bool)
      requires Wf(View())
      modifies this`channels
      ensures View() == M.SendOne(old(View()), id, m, ok)
      ensures ok ==> id in clients
    {
      if id !in clients { return false; }
      assert Live(View(), clients[id]);
      ok := *;
      if ok {
        channels := channels[clients[id] := channels[clients[id]].(sent := channels[clients[id]].sent + [m])];
      }
    }

    method RemovePlayer(id: int, reason: seq<Msg>) returns (ghost v: M.Evict)
      requires Wf(View()) && (forall m :: m in reason ==> Inert(m))
      modifies this
      ensures v.id == id && View() == M.Remove(old(View()), v, reason)
    {
      if id !in clients { return M.Evict(id, false, 0); }
      hide Wf, Closed, M.Elect;
      ghost var s := View();
      var told := Disconnect(id, reason);
      ghost var heir := Reelect(id);
      if masterID == -1 { CleanUp(); }
      v := M.Evict(id, told, heir);
      RemoveIs(s, v, reason);
    }

    /** The reason is sent if there is room, the inbox closed and forgotten. */
    method Disconnect(id: int, reason: seq<Msg>) returns (told: bool)
      requires Wf(View()) && id in clients && (forall m :: m in reason ==> Inert(m))
      modifies this
      ensures View() == Closed(old(View()), id, told, reason)
    {
      var inbox := clients[id];
      told := false;
      if reason != [] {
        PutInert(engine, View(), id, reason[0]);
        told := SendOne(id, reason[0]);
      }
      assert Live(View(), inbox);
      hide Wf, PlayersOk, ClientsOk, JoinersOk, M.SendOne;
      channels := channels[inbox := channels[inbox].(closed := true)];
      clients := clients - {id};
    }

    /** When the master has gone, any client left is the next one. */
    method Reelect(id: int) returns (ghost heir: int)
      modifies this`masterID
      ensures masterID == if old(masterID) == id then M.Elect(clients, heir) else old(masterID)
    {
      heir := 0;
      if masterID == id {
        masterID := -1;
        if cid :| cid in clients {
          masterID, heir := cid, cid;
        }
      }
    }

    method CleanUp()
      modifies this`players, this`nextID
      ensures View() == M.CleanUp(old(View()))
    {
      players, nextID := map[], 1;
    }

    /** The first loop of sendAll; `deadPlayers` are those whose inbox was full. */
    method Offer(m: Msg) returns (deadPlayers: seq<int>)
      requires Wf(View())
      modifies this`channels
      ensures View() == M.Broadcast(old(View()), m, set id | id in clients && id !in deadPlayers :: clients[id])
    {
      ghost var s0 := View();
      deadPlayers := [];
      var todo := clients.Keys;
      OwnInboxes(s0);
      hide Wf, Offering, Distinct;
      while exists x :: x in todo
        invariant View() == s0.(inboxes := channels) && todo <= clients.Keys
        invariant Offering(s0, channels, todo, deadPlayers, m)
        decreases |todo|
      {
        var idx :| idx in todo;
        OfferStep(s0, channels, todo, deadPlayers, m, idx);
        var room: bool := *;
        if room {
          channels := channels[clients[idx] := Given(channels[clients[idx]], m)];
        } else {
          deadPlayers := deadPlayers + [idx];
        }
        todo := todo - {idx};
      }
      BroadcastIs(s0, m, deadPlayers, View()) by { assert todo == {}; }
    }

    method SendAll(m: Msg) returns (ghost slow: seq<M.Evict>)
      requires Wf(View())
      modifies this
      ensures View() == M.SendAll(old(View()), m, slow)
    {
      hide M.Broadcast, Wf, M.RemoveAll;
      ghost var s0 := View();
      var deadPlayers := Offer(m);
      ghost var full := seq(|deadPlayers|, k requires 0 <= k < |deadPlayers| => M.Evict(deadPlayers[k], false, 0));
      TargetsOf(s0, deadPlayers, full);
      BroadcastTold(engine, s0, m, full);
      slow := RemoveDead(deadPlayers);
      TargetsOf(s0, deadPlayers, slow);
    }

    /** The second loop of sendAll. */
    method RemoveDead(ids: seq<int>) returns (ghost slow: seq<M.Evict>)
      requires Wf(View())
      modifies this
      ensures |slow| == |ids| && (forall k :: 0 <= k < |ids| ==> slow[k].id == ids[k])
      ensures View() == M.RemoveAll(old(View()), slow, [Notice(TooSlow)])
    {
      slow := [];
      for k := 0 to |ids|
        invariant |slow| == k && (forall i :: 0 <= i < k ==> slow[i].id == ids[i])
        invariant View() == M.RemoveAll(old(View()), slow, [Notice(TooSlow)])
      {
        RemoveAllCalm(engine, old(View()), slow, [Notice(TooSlow)]);
        var v := RemovePlayer(ids[k], [Notice(TooSlow)]);
        RemoveAllOne(old(View()), slow, v, [Notice(TooSlow)]);
        slow := slow + [v];
      }
    }

    /** One round of sendMaster: the master gets `m`, or is removed for being slow. */
    method TryMaster(m: Msg) returns (ok: bool, ghost v: M.Evict)
      requires Wf(View()) && masterID in clients
      modifies this
      ensures v.id == old(masterID)
      ensures ok ==> View() == M.Put(old(View()), old(clients)[old(masterID)], m)
      ensures !ok ==> View() == M.Remove(old(View()), v, [Notice(TooSlow)])
      ensures !ok ==> Wf(View()) && |clients| < |old(clients)| && (masterID == -1 || masterID in clients)
      ensures hung == old(hung)
    {
      hide M.Remove, M.Put, Wf;
      v := M.Evict(masterID, false, 0);
      ghost var s1 := View();
      ok := SendOne(masterID, m);
      if !ok {
        v := RemovePlayer(masterID, [Notice(TooSlow)]);
        RemovedMaster(engine, s1, v);
      }
    }

    /** sendMaster. When there are clients and the master is none of them, a turn of the loop finds no inbox and
        nobody to remove, so that nothing changes and the next turn is the same: the registry hangs. */
    method SendMaster(m: Msg) returns (ok: bool, ghost slow: seq<M.Evict>)
      requires Wf(View()) && Inert(m) && !hung
      modifies this
      ensures M.SendMaster(old(View()), m, slow) == if hung then M.Hangs(View()) else if ok then M.Sent(View()) else M.Failed(View())
    {
      slow := [];
      if |clients| == 0 { assert clients.Keys == {}; return false, []; }
      ghost var s0 := View();
      assert s0.clients != map[];
      if masterID !in clients {
        LoopHangs(s0, m);
        hung := true;
        return false, [];
      }
      hide M.Remove, M.Put, M.LoopMaster, Wf, Inert;
      Nothing(s0, m);
      while true
        invariant Wf(View()) && masterID in clients && !hung
        invariant Continues(s0, m, slow, View())
        decreases |clients|
      {
        ghost var s1 := View();
        ghost var v;
        ok, v := TryMaster(m);
        if ok {
          LoopSent(s0, m, slow, s1);
          return;
        }
        ghost var before := slow;
        slow := slow + [v];
        LoopStep(s0, m, before, s1, v);
        if masterID == -1 { return; }
      }
    }

    method CheckForNewGame()
      modifies this`currentTick
      ensures View() == M.CheckForNewGame(old(View()))
    {
      if |clients| != 0 { assert clients != map[]; return; }
      assert clients.Keys == {};
      currentTick := 0;
    }

    /** The end of registerPlayer. */
    method Attach(login: string, id: int, seed: W) returns (master: bool)
      requires Wf(View()) && id >= 1
      modifies this
      ensures View() == M.Attach(old(View()), login, id, seed)
      ensures master <==> old(masterID) == -1
    {
      if id in clients {
        assert Live(View(), clients[id]);
        channels := channels[clients[id] := channels[clients[id]].(closed := true)];
        clients := clients - {id};
      }
      var inbox := |channels|;
      if masterID == -1 {
        session := session + 1;
        masterID, master := id, true;
        channels := channels + [M.Inbox(id, M.Started(World(0, seed), session), [], false)];
        clients := clients[id := inbox];
      } else {
        nextTickCallbacks := nextTickCallbacks + [M.Joiner(login, id, inbox)];
        channels := channels + [M.Inbox(id, M.NotStarted, [], false)];
        master := false;
      }
    }

    method Announce(login: string, isAdmin: bool) returns (ghost slow: seq<M.Evict>)
      requires Wf(View()) && login !in players
      modifies this
      ensures View() == M.Announce(old(View()), login, isAdmin, slow) && Wf(View())
    {
      hide M.SendAll, Wf;
      ghost var s1 := View();
      T.EnrolKeeps(engine, s1, login, isAdmin, map[]);
      var id := nextID;
      nextID := nextID + 1;
      players := players[login := M.Player(id, isAdmin)];
      slow := SendAll(NewClient(id));
      T.AnnounceSync(engine, s1, login, isAdmin, slow);
    }

    /** registerPlayer for a login that is no player. */
    method RegisterNew(login: string, isAdmin: bool, seed: W) returns (ghost slow: seq<M.Evict>)
      requires Wf(View()) && login !in players
      modifies this
      ensures View() == M.RegisterNew(old(View()), login, isAdmin, seed, slow)
    {
      slow := [];
      if |players| == 0 && !isAdmin { assert players.Keys == {}; return; }
      assert players != map[] || isAdmin;
      assert nextID >= 1;
      hide M.Announce, M.Attach, Wf;
      T.NewGameKeeps(engine, View(), map[]);
      var id := nextID;
      CheckForNewGame();
      slow := Announce(login, isAdmin);
      var _ := Attach(login, id, seed);
    }

    /** registerPlayer, once the login is authenticated. */
    method RegisterPlayer(login: string, isAdmin: bool, seed: W) returns (ghost self: M.Evict, ghost slow: seq<M.Evict>)
      requires Wf(View())
      modifies this
      ensures View() == M.Register(old(View()), login, isAdmin, seed, self, slow)
    {
      hide M.RegisterNew, M.Attach, M.Remove, InSync;
      self, slow := M.Evict(0, false, 0), [];
      if login !in players {
        slow := RegisterNew(login, isAdmin, seed);
        return;
      }
      ghost var s0 := View();
      T.NewGameKeeps(engine, s0, map[]);
      var id := players[login].id;
      CheckForNewGame();
      self := RemovePlayer(id, []);
      T.ReregisterSync(engine, s0, login, isAdmin, seed, self);
      assert self.(id := id) == self;
      if login !in players {
        // the session ended with this removal: register again
        slow := RegisterNew(login, isAdmin, seed);
        return;
      }
      players := players[login := M.Player(id, isAdmin)];
      var _ := Attach(login, id, seed);
    }

    // ----- messages from clients

    method HandleHash(from: int, reply: Reply)
      modifies this`hashes
      ensures View() == M.HandleHash(old(View()), from, reply)
    {
      if reply.tick !in hashes { return; }
      var checker := hashes[reply.tick];
      hashes := hashes[reply.tick := M.Checker(checker.waiting - 1, checker.hashes[from := reply.hash])];
    }

    method HandlePing(from: int, pingId: string) returns (ok: bool)
      requires Wf(View())
      modifies this`channels
      ensures View() == M.SendOne(old(View()), from, Ping(pingId), ok)
    {
      ok := SendOne(from, Ping(pingId));
    }

    method HandleGameMessage(from: int, kind: int, body: string) returns (ghost slow: seq<M.Evict>)
      requires Wf(View())
      modifies this
      ensures View() == M.SendAll(old(View()), Game(kind, from, body), slow)
    {
      slow := SendAll(Game(kind, from, body));
    }

    /** An admin's restart removes every player and then every client that is left. */
    method HandleRestart(from: int) returns (ghost evicts: seq<M.Evict>)
      requires Wf(View())
      modifies this
      ensures View() == if M.IsAdmin(old(View()), from) then M.RemoveAll(old(View()), evicts, [Notice(ServerRestarting)])
                        else old(View())
      ensures (exists login :: login in old(players) && old(players)[login] == M.Player(from, true)) ==> clients == map[]
      ensures (forall login :: login in old(players) ==> old(players)[login] != M.Player(from, true)) ==> View() == old(View())
    {
      hide Wf;
      evicts := [];
      ghost var s0 := View();
      if !(exists login :: login in players && players[login].id == from && players[login].admin) { return; }
      assert M.IsAdmin(s0, from);
      var all := players;
      var todo := all.Keys;
      while exists x :: x in todo
        invariant todo <= all.Keys
        invariant Wf(View()) && View() == M.RemoveAll(s0, evicts, [Notice(ServerRestarting)])
        decreases |todo|
      {
        var login :| login in todo;
        evicts := RemoveNext(s0, evicts, all[login].id);
        todo := todo - {login};
      }
      while exists x :: x in clients
        invariant Wf(View()) && View() == M.RemoveAll(s0, evicts, [Notice(ServerRestarting)])
        decreases |clients|
      {
        var id :| id in clients;
        evicts := RemoveNext(s0, evicts, id);
      }
      assert clients.Keys == {};
    }

    method RemoveNext(ghost s0: M.State<W>, ghost evicts: seq<M.Evict>, id: int) returns (ghost evicts': seq<M.Evict>)
      requires Wf(View()) && View() == M.RemoveAll(s0, evicts, [Notice(ServerRestarting)])
      modifies this
      ensures Wf(View()) && View() == M.RemoveAll(s0, evicts', [Notice(ServerRestarting)])
      ensures clients == old(clients) - {id}
    {
      RemoveCalm(engine, View(), M.Evict(id, false, 0), [Notice(ServerRestarting)]);
      ghost var s := View();
      var v := RemovePlayer(id, [Notice(ServerRestarting)]);
      RemoveCalm(engine, s, v, [Notice(ServerRestarting)]);
      RemoveAllOne(s0, evicts, v, [Notice(ServerRestarting)]);
      evicts' := evicts + [v];
      assert id !in s.clients ==> s.clients - {id} == s.clients;
    }

    // ----- ticks

    method SendNewTick() returns (ghost slow: seq<M.Evict>)
      requires Wf(View())
      modifies this
      ensures View() == M.SendNewTick(old(View()), slow)
    {
      SameShape(View(), View().(currentTick := currentTick + 1));
      currentTick := currentTick + 1;
      slow := SendAll(NewTick);
    }

    method CheckForHashStart() returns (ghost slow: seq<M.Evict>)
      requires Wf(View())
      modifies this
      ensures View() == M.CheckForHashStart(old(View()), slow)
    {
      if currentTick % M.StartHashCheckEvery != 0 || |clients| < 2 { return []; }
      var checker := M.Checker(|clients|, map[]);
      SameShape(View(), View().(hashes := hashes[currentTick := checker]));
      hashes := hashes[currentTick := checker];
      slow := SendAll(RequestHash(currentTick));
    }

    method DumpPlayerMap(id: int) returns (ghost d: M.Dump)
      requires Wf(View())
      modifies this
      ensures View() == M.DumpMap(old(View()), id, d)
    {
      ghost var s0 := View();
      var ok := SendOne(id, MapUpload(currentTick));
      d := M.Dump(ok, M.Evict(id, false, 0));
      if !ok {
        var v := RemovePlayer(id, [Notice(TooSlow)]);
        d := M.Dump(false, v);
        assert v.(id := id) == v;
      }
    }

    /** checkHashesOne: whoever reported another hash than the master is evicted, and nobody else but a master whose
        inbox is full. */
    method CheckHashesOne(checker: M.Checker) returns (ghost v: M.Visit)
      requires Wf(View())
      modifies this
      ensures View() == M.CheckHashesOne(old(View()), checker, v) && Covers(checker, old(masterID), v.rows)
      ensures var m := old(masterID);
        && (m == -1 || m !in checker.hashes ==> View() == old(View()))
        && (forall id :: id in clients ==> id in old(clients) && clients[id] == old(clients)[id])
        && (forall id :: id in old(clients) && id !in clients ==>
              (m in checker.hashes && id in checker.hashes && checker.hashes[id] != checker.hashes[m]) || (id == m && !v.dump.room))
        && (forall id :: m != -1 && m in checker.hashes && id in checker.hashes && checker.hashes[id] != checker.hashes[m] ==> id !in clients)
    {
      ghost var s0 := View();
      v := M.Visit(0, false, M.Dump(false, M.Evict(0, false, 0)), []);
      if masterID == -1 { return; }
      var unsynced := M.Unsynced(checker, masterID);
      assert forall id :: Differs(checker, s0.masterID, id) <==> id in unsynced;
      if unsynced == {} { NobodyDiffers(engine, s0, checker, v); return; }
      hide M.EvictRows, Wf, M.DumpMap, M.Unsynced, Calm;
      var d := DumpPlayerMap(masterID);
      T.DumpCalm(engine, s0, s0.masterID, d);
      var rows := EvictAll(unsynced);
      v := M.Visit(0, false, d, rows);
      OneCheck(engine, s0, checker, v);
    }

    method EvictAll(unsynced: set<int>) returns (ghost rows: seq<M.Row>)
      requires Wf(View())
      modifies this
      ensures View() == M.EvictRows(old(View()), unsynced, rows)
      ensures forall id :: id in unsynced ==> HasRow(rows, id)
    {
      ghost var s1 := View();
      hide M.EvictRows, Wf, Calm;
      rows := [];
      NoRows(s1, unsynced);
      var todo := unsynced;
      while exists x :: x in todo
        invariant todo <= unsynced
        invariant Wf(View()) && View() == M.EvictRows(s1, unsynced, rows)
        invariant forall id :: id in unsynced ==> id in todo || HasRow(rows, id)
        decreases |todo|
      {
        var id :| id in todo;
        var r := EvictUnsynced(id, unsynced);
        EvictRowsOne(s1, unsynced, rows, r);
        MoreRows(rows, r);
        rows := rows + [r];
        todo := todo - {id};
      }
    }

    method EvictUnsynced(id: int, unsynced: set<int>) returns (ghost r: M.Row)
      requires Wf(View()) && id in unsynced
      modifies this
      ensures r.id == id && Wf(View()) && View() == M.EvictRows(old(View()), unsynced, [r])
    {
      ghost var s0 := View();
      var d := DumpPlayerMap(id);
      T.DumpCalm(engine, s0, id, d);
      ghost var s1 := View();
      var v := RemovePlayer(id, [Notice(OutOfSync)]);
      RemoveCalm(engine, s1, v, [Notice(OutOfSync)]);
      assert v.(id := id) == v;
      r := M.Row(id, d, v);
      assert [r][1..] == [];
      assert M.EvictRows(s0, unsynced, [r]) == M.EvictRows(M.Remove(M.DumpMap(s0, id, d), v, [Notice(OutOfSync)]), unsynced, []);
    }

    /** checkHashes visits every check once, in any order. If the master survives, those have gone whose report differs
        from its own in a complete check, and nobody whose reports agree with its own. */
    method CheckHashes() returns (ghost vs: seq<M.Visit>)
      requires Wf(View())
      modifies this
      ensures View() == M.CheckHashes(old(View()), vs)
      ensures forall t :: t in old(hashes) ==> exists v :: v in vs && v.tick == t
      ensures old(masterID) in clients ==>
        && (forall t, id :: t in old(hashes) && old(hashes)[t].waiting <= 0 && Differs(old(hashes)[t], old(masterID), id) ==> id !in clients)
        && (forall id :: id in old(clients) && id !in clients ==> exists t :: t in old(hashes) && Differs(old(hashes)[t], old(masterID), id))
    {
      ghost var s0 := View();
      hide M.CheckVisit, Wf, Differs, Covers, Decided;
      vs := [];
      var todo := hashes.Keys;
      while exists x :: x in todo
        invariant Wf(View()) && View() == M.CheckHashes(s0, vs)
        invariant todo <= s0.hashes.Keys
        invariant forall t :: t in todo ==> t in hashes && hashes[t] == s0.hashes[t]
        invariant forall t :: t in s0.hashes && t !in todo ==> exists v :: v in vs && v.tick == t
        invariant clients.Keys <= s0.clients.Keys
        invariant s0.masterID in clients ==> masterID == s0.masterID && AllCovered(s0, vs)
        decreases |todo|
      {
        var tick :| tick in todo;
        ghost var s := View();
        var v := CheckVisit(tick);
        T.CheckVisitCalm(engine, s, v);
        VisitChanges(engine, s, v);
        CheckHashesAppend(s0, vs, v);
        assert (vs + [v])[|vs|] == v;
        vs := vs + [v];
        todo := todo - {tick};
      }
      if s0.masterID in clients { AfterAll(engine, s0, vs); }
    }

    method CheckVisit(tick: int) returns (ghost v: M.Visit)
      requires Wf(View())
      modifies this
      ensures v.tick == tick && View() == M.CheckVisit(old(View()), v)
      ensures IsDue(old(View()), v) ==> Covers(old(hashes)[tick], old(masterID), v.rows)
    {
      var expired: bool := *;
      v := M.Visit(tick, expired, M.Dump(false, M.Evict(0, false, 0)), []);
      if tick in hashes && (expired || hashes[tick].waiting <= 0) {
        var w := CheckHashesOne(hashes[tick]);
        hashes := hashes - {tick};
        v := w.(tick := tick, expired := expired);
      }
    }

    method MaybeSendConnCounter() returns (ghost slow: seq<M.Evict>)
      requires Wf(View())
      modifies this
      ensures View() == M.MaybeSendConnCounter(old(View()), slow)
    {
      if currentTick % M.SendConnCountEvery != 0 { return []; }
      slow := SendAll(CurrentConnections(|clients|));
    }

    /** One postponed map request, taken off the front of the list. */
    method RequestMap() returns (ghost slow: seq<M.Evict>)
      requires Wf(View()) && nextTickCallbacks != [] && !hung
      modifies this
      ensures View() == JoinStep(engine, old(View()), slow)
    {
      hide M.SendMaster, M.Snapshot, Wf, Calm, M.Put, M.LoopMaster, SameInbox;
      ghost var s0 := View();
      var j := nextTickCallbacks[0];
      assert j.inbox < |channels| && !channels[j.inbox].closed by { FirstWaits(s0); }
      slow := [];
      if j.login !in players {
        channels := channels[j.inbox := channels[j.inbox].(closed := true)];
        nextTickCallbacks := nextTickCallbacks[1..];
        return;
      }
      var ok;
      ok, slow := SendMaster(MapUpload(currentTick));
      assert |channels| == |s0.inboxes| && !channels[j.inbox].closed && nextTickCallbacks == s0.callbacks by {
        StillWaits(engine, s0, slow);
      }
      if hung {
      } else if ok {
        var world := M.Snapshot(engine, View());
        clients := clients[j.id := j.inbox];
        channels := channels[j.inbox := channels[j.inbox].(origin := world)];
      } else {
        channels := channels[j.inbox := channels[j.inbox].(closed := true)];
      }
      nextTickCallbacks := nextTickCallbacks[1..];
    }

    /** invokeNextTickCallbacks.  The source empties the list at the end; nothing reads it meanwhile. */
    method InvokeNextTickCallbacks() returns (ghost slow: seq<seq<M.Evict>>)
      requires Wf(View()) && !hung
      modifies this
      ensures View() == M.JoinAll(engine, old(View()), old(nextTickCallbacks), slow)
    {
      slow := [];
      ghost var s0 := View();
      hide M.JoinAll, Wf;
      JoinsNothing(engine, s0);
      while nextTickCallbacks != [] && !hung
        invariant Wf(View())
        invariant Joins(engine, s0, slow, View())
        decreases |nextTickCallbacks|
      {
        ghost var s := View();
        var one := RequestMap();
        JoinStepWf(engine, s, one);
        JoinsStep(engine, s0, slow, s, one);
        slow := slow + [one];
      }
      JoinsDone(engine, s0, slow, View());
    }

    /** A tick, by the timer or forced by an admin. */
    method HandleNewTick() returns (ghost c: M.TickChoice)
      requires Wf(View()) && !hung
      modifies this
      ensures View() == M.HandleNewTick(engine, old(View()), c)
    {
      ghost var s := View();
      hide M.SendNewTick, M.CheckForHashStart, M.CheckHashes, M.MaybeSendConnCounter, M.JoinAll, Wf;
      var slow1 := SendNewTick();
      TickSent(engine, s, slow1);
      ghost var s1 := View();
      var slow2 := CheckForHashStart();
      T.HashStartKeeps(engine, s1, slow2);
      ghost var s2 := View();
      var visits := CheckHashes();
      T.CheckHashesCalm(engine, s2, visits);
      ghost var s3 := View();
      var slow3 := MaybeSendConnCounter();
      T.CountKeeps(engine, s3, slow3);
      var slow4 := InvokeNextTickCallbacks();
      c := M.TickChoice(slow1, slow2, visits, slow3, slow4);
    }

    method HandleForcedNextTick(from: int) returns (ghost c: M.TickChoice)
      requires Wf(View()) && !hung
      modifies this
      ensures View() == if M.IsAdmin(old(View()), from) then M.HandleNewTick(engine, old(View()), c) else old(View())
      ensures (forall login :: login in old(players) ==> old(players)[login] != M.Player(from, true)) ==> View() == old(View())
    {
      hide M.HandleNewTick, Wf;
      c := M.TickChoice([], [], [], [], []);
      if exists login :: login in players && players[login].id == from && players[login].admin {
        assert M.IsAdmin(View(), from);
        c := HandleNewTick();
      }
    }
  }
}
