/** What becomes of inboxes (gopath/src/griefly-server/client.go:132-389): every one that was made is closed, or belongs to
    a client, or waits for its map request. One login too many breaks it.
 */
module InboxTheorems {
  import opened GameClient
  import opened RegistryModel
  import opened RegistryInvariants
  import opened LockstepTheorems
  import opened HashChecks
  import opened LockstepLimits

  ghost predicate Shut<W>(s: State<W>, i: nat) {
    i < |s.inboxes| && s.inboxes[i].closed
  }

  ghost predicate IsClients<W>(s: State<W>, i: nat) {
    exists c :: c in s.clients && s.clients[c] == i
  }

  ghost predicate IsJoiners<W>(s: State<W>, i: nat) {
    exists j :: j in s.callbacks && j.inbox == i
  }

  /** Nobody is left listening to an inbox that nothing will ever be sent to, and that is not closed either. */
  ghost predicate NoneForgotten<W>(s: State<W>) {
    forall i: nat :: i < |s.inboxes| ==> Shut(s, i) || IsClients(s, i) || IsJoiners(s, i)
  }

  /** From `s` to `t` nobody joined, and the inbox of whoever left is closed. */
  ghost predicate Settles<W>(s: State<W>, t: State<W>) {
    && |t.inboxes| == |s.inboxes| && t.callbacks == s.callbacks
    && (forall i: nat :: Shut(s, i) ==> Shut(t, i))
    && (forall c :: c in t.clients ==> c in s.clients && t.clients[c] == s.clients[c])
    && (forall c :: c in s.clients && c !in t.clients ==> Shut(t, s.clients[c]))
  }

  lemma SettlesTrans<W>(s: State<W>, t: State<W>, u: State<W>)
    requires Settles(s, t) && Settles(t, u)
    ensures Settles(s, u)
  {
    hide Shut;
  }

  lemma SettlesSame<W>(s: State<W>, t: State<W>)
    requires t.inboxes == s.inboxes && t.callbacks == s.callbacks && t.clients == s.clients
    ensures Settles(s, t)
  {}

  lemma SettlesKeeps<W>(s: State<W>, t: State<W>)
    requires Settles(s, t) && NoneForgotten(s)
    ensures NoneForgotten(t)
  {
    hide Shut;
    forall i: nat | i < |t.inboxes| ensures Shut(t, i) || IsClients(t, i) || IsJoiners(t, i) {
      if IsClients(s, i) {
        var c :| c in s.clients && s.clients[c] == i;
        assert c !in t.clients ==> Shut(t, i);
      }
    }
  }

  // ----- sending and removing

  lemma PutSettles<W>(e: Engine<W>, s: State<W>, c: int, m: Msg)
    requires Wf(s) && c in s.clients
    ensures Settles(s, Put(s, s.clients[c], m))
  {
    hide Wf;
  }

  lemma CloseSettles<W>(s: State<W>, id: int)
    requires Wf(s) && id in s.clients
    ensures Settles(s, Close(s, s.clients[id]).(clients := s.clients - {id}))
  {
    ClientIsLive(s, id);
    hide Wf;
  }

  /** A client that is removed finds its inbox closed, with the reason as the last message if there was room. */
  lemma RemoveCloses<W>(s: State<W>, v: Evict, reason: seq<Msg>)
    requires Wf(s) && v.id in s.clients
    ensures var b := Remove(s, v, reason).inboxes;
      var i := s.clients[v.id];
      && i < |s.inboxes| == |b|
      && b == s.inboxes[i := s.inboxes[i].(closed := true,
                sent := if v.told && reason != [] then s.inboxes[i].sent + [reason[0]] else s.inboxes[i].sent)]
  {
    ClientIsLive(s, v.id);
    hide Wf, Elect;
  }

  lemma RemoveSettles<W>(e: Engine<W>, s: State<W>, v: Evict, reason: seq<Msg>)
    requires Wf(s) && (forall m :: m in reason ==> Inert(m))
    ensures Settles(s, Remove(s, v, reason))
  {
    hide Wf, Elect, Remove, SameInbox, Inert;
    RemoveCalm(e, s, v, reason);
    if v.id in s.clients {
      RemoveCloses(s, v, reason);
    } else {
      SettlesSame(s, s);
    }
  }

  /** The inboxes of those who stay are as before. */
  ghost predicate LeavesOthers<W>(s: State<W>, t: State<W>) {
    && |t.inboxes| == |s.inboxes|
    && (forall c :: c in t.clients ==> c in s.clients && t.clients[c] == s.clients[c])
    && (forall c :: c in t.clients && t.clients[c] < |s.inboxes| ==> t.inboxes[t.clients[c]] == s.inboxes[t.clients[c]])
  }

  lemma RemoveLeavesOthers<W>(e: Engine<W>, s: State<W>, v: Evict, reason: seq<Msg>)
    requires Wf(s) && (forall m :: m in reason ==> Inert(m))
    ensures LeavesOthers(s, Remove(s, v, reason))
  {
    RemoveCalm(e, s, v, reason);
    if v.id in s.clients {
      RemoveCloses(s, v, reason);
      OwnInbox(s, v.id);
    }
    hide Remove, Wf, SameInbox, Inert;
  }

  lemma {:induction false} RemoveAllSettles<W>(e: Engine<W>, s: State<W>, vs: seq<Evict>, reason: seq<Msg>)
    requires Wf(s) && (forall m :: m in reason ==> Inert(m))
    ensures Settles(s, RemoveAll(s, vs, reason)) && LeavesOthers(s, RemoveAll(s, vs, reason))
    decreases |vs|
  {
    hide Wf, Remove, Settles, Calm;
    if vs == [] {
      SettlesSame(s, s);
    } else {
      var s1 := Remove(s, vs[0], reason);
      RemoveCalm(e, s, vs[0], reason);
      RemoveSettles(e, s, vs[0], reason);
      RemoveLeavesOthers(e, s, vs[0], reason);
      RemoveAllSettles(e, s1, vs[1..], reason);
      SettlesTrans(s, s1, RemoveAll(s, vs, reason));
    }
  }

  /** A broadcast: everyone who stays has exactly this message more, everyone else's inbox is closed. */
  lemma SendAllDelivers<W>(e: Engine<W>, s: State<W>, m: Msg, slow: seq<Evict>)
    requires Wf(s)
    ensures Settles(s, SendAll(s, m, slow))
    ensures forall c :: c in SendAll(s, m, slow).clients ==>
      var i := SendAll(s, m, slow).clients[c];
      && i < |s.inboxes| == |SendAll(s, m, slow).inboxes|
      && SendAll(s, m, slow).inboxes[i] == s.inboxes[i].(sent := s.inboxes[i].sent + [m])
  {
    var t := Broadcast(s, m, Targets(s, slow));
    BroadcastTold(e, s, m, slow);
    BroadcastSends(s, m, slow);
    RemoveAllSettles(e, t, slow, [Notice(TooSlow)]);
    RemoveAllCalm(e, t, slow, [Notice(TooSlow)]);
    hide Wf, RemoveAll, Broadcast, Targets, Settles, GotIt, SameInbox, Calm;
    var u := SendAll(s, m, slow);
    SettlesTrans(s, t, u);
    forall c | c in u.clients
      ensures c in s.clients && u.clients[c] == s.clients[c] < |s.inboxes| && u.inboxes[s.clients[c]] == s.inboxes[s.clients[c]].(sent := s.inboxes[s.clients[c]].sent + [m])
    {
      assert c in t.clients;
      ClientIsLive(s, c);
    }
  }

  lemma BroadcastSends<W>(s: State<W>, m: Msg, slow: seq<Evict>)
    requires Wf(s)
    ensures var t := Broadcast(s, m, Targets(s, slow));
      && t == s.(inboxes := t.inboxes) && |t.inboxes| == |s.inboxes| && Settles(s, t)
      && forall c :: c in s.clients && (forall v :: v in slow ==> v.id != c) ==>
           s.clients[c] < |s.inboxes| && t.inboxes[s.clients[c]] == s.inboxes[s.clients[c]].(sent := s.inboxes[s.clients[c]].sent + [m])
  {
    var to := Targets(s, slow);
    forall i: nat | i in to ensures Live(s, i) {}
    forall c | c in s.clients ensures s.clients[c] < |s.inboxes| { ClientIsLive(s, c); }
    hide Wf;
  }

  lemma SendSettles<W>(e: Engine<W>, s: State<W>, s1: State<W>, m: Msg, slow: seq<Evict>)
    requires Wf(s1) && Settles(s, s1)
    ensures Settles(s, SendAll(s1, m, slow))
  {
    hide Wf, SendAll, Settles;
    SendAllDelivers(e, s1, m, slow);
    SettlesTrans(s, s1, SendAll(s1, m, slow));
  }

  lemma {:induction false} LoopMasterSettles<W>(e: Engine<W>, s: State<W>, m: Msg, slow: seq<Evict>)
    requires Wf(s) && Inert(m)
    ensures Settles(s, LoopMaster(s, m, slow).state)
    decreases |slow|
  {
    hide Wf, Remove, Settles, Put, Calm;
    if s.masterID in s.clients && slow == [] {
      PutSettles(e, s, s.masterID, m);
    } else {
      var v := if slow == [] then Evict(s.masterID, false, s.masterID) else slow[0].(id := s.masterID);
      var s1 := Remove(s, v, [Notice(TooSlow)]);
      RemoveCalm(e, s, v, [Notice(TooSlow)]);
      RemoveSettles(e, s, v, [Notice(TooSlow)]);
      SettlesSame(s, s.(status := Stuck));
      if s1.masterID != -1 && s.masterID in s.clients {
        LoopMasterSettles(e, s1, m, slow[1..]);
        SettlesTrans(s, s1, LoopMaster(s1, m, slow[1..]).state);
      }
    }
  }

  lemma SendMasterSettles<W>(e: Engine<W>, s: State<W>, m: Msg, slow: seq<Evict>)
    requires Wf(s) && Inert(m)
    ensures Settles(s, SendMaster(s, m, slow).state)
  {
    hide Wf, Settles, LoopMaster;
    SettlesSame(s, s);
    LoopMasterSettles(e, s, m, slow);
  }

  /** What the server sends by itself: from `s` to `t` every client that stays has exactly `m` more. */
  ghost predicate EveryoneHas<W>(s: State<W>, t: State<W>, m: Msg) {
    forall c :: c in t.clients ==>
      && c in s.clients && t.clients[c] == s.clients[c] < |s.inboxes| == |t.inboxes|
      && t.inboxes[t.clients[c]] == s.inboxes[s.clients[c]].(sent := s.inboxes[s.clients[c]].sent + [m])
  }

  lemma SentToEveryone<W>(e: Engine<W>, s: State<W>, s1: State<W>, m: Msg, slow: seq<Evict>)
    requires Wf(s1) && s1.clients == s.clients && s1.inboxes == s.inboxes
    ensures EveryoneHas(s, SendAll(s1, m, slow), m)
  {
    SendAllDelivers(e, s1, m, slow);
    hide Wf, SendAll, Shut;
  }

  /** A tick is counted and sent. */
  lemma TickIsSent<W>(e: Engine<W>, s: State<W>, slow: seq<Evict>)
    requires Wf(s)
    ensures var t := SendNewTick(s, slow); t.currentTick == s.currentTick + 1 && EveryoneHas(s, t, NewTick)
  {
    var s1 := s.(currentTick := s.currentTick + 1);
    SameShape(s, s1);
    SentToEveryone(e, s, s1, NewTick, slow);
    SendAllTold(e, s1, NewTick, slow);
    hide Wf, SendAll, GotIt, SameInbox;
  }

  /** On each fifth tick everyone is told how many there are, on the others nothing happens. */
  lemma CountIsSent<W>(e: Engine<W>, s: State<W>, slow: seq<Evict>)
    requires Wf(s)
    ensures if s.currentTick % 5 == 0 then EveryoneHas(s, MaybeSendConnCounter(s, slow), CurrentConnections(|s.clients|))
      else MaybeSendConnCounter(s, slow) == s
  {
    SentToEveryone(e, s, s, CurrentConnections(|s.clients|), slow);
    hide Wf, SendAll;
  }

  // ----- hash checks

  lemma DumpSettles<W>(e: Engine<W>, s: State<W>, id: int, d: Dump)
    requires Wf(s)
    ensures Settles(s, DumpMap(s, id, d))
  {
    hide Wf, Settles, Put, Remove;
    RemoveSettles(e, s, d.evict.(id := id), [Notice(TooSlow)]);
    if id in s.clients { PutSettles(e, s, id, MapUpload(s.currentTick)); }
  }

  lemma {:induction false} RowsSettle<W>(e: Engine<W>, s: State<W>, unsynced: set<int>, rows: seq<Row>)
    requires Wf(s)
    ensures Settles(s, EvictRows(s, unsynced, rows))
    decreases |rows|
  {
    hide Wf, Settles, DumpMap, Remove, Calm;
    if rows == [] {
      SettlesSame(s, s);
    } else if rows[0].id !in unsynced {
      RowsSettle(e, s, unsynced, rows[1..]);
    } else {
      var s1 := DumpMap(s, rows[0].id, rows[0].dump);
      DumpCalm(e, s, rows[0].id, rows[0].dump);
      DumpSettles(e, s, rows[0].id, rows[0].dump);
      var v := rows[0].evict.(id := rows[0].id);
      var s2 := Remove(s1, v, [Notice(OutOfSync)]);
      RemoveCalm(e, s1, v, [Notice(OutOfSync)]);
      RemoveSettles(e, s1, v, [Notice(OutOfSync)]);
      RowsSettle(e, s2, unsynced, rows[1..]);
      SettlesTrans(s, s1, s2);
      SettlesTrans(s, s2, EvictRows(s, unsynced, rows));
    }
  }

  lemma VisitSettles<W>(e: Engine<W>, s: State<W>, v: Visit)
    requires Wf(s)
    ensures Settles(s, CheckVisit(s, v))
  {
    hide Wf, Settles, DumpMap, EvictRows, Unsynced, Calm;
    SettlesSame(s, s);
    if v.tick in s.hashes {
      var s1 := CheckHashesOne(s, s.hashes[v.tick], v);
      var s0 := DumpMap(s, s.masterID, v.dump);
      DumpCalm(e, s, s.masterID, v.dump);
      DumpSettles(e, s, s.masterID, v.dump);
      RowsSettle(e, s0, Unsynced(s.hashes[v.tick], s.masterID), v.rows);
      SettlesTrans(s, s0, EvictRows(s0, Unsynced(s.hashes[v.tick], s.masterID), v.rows));
      var t := s1.(hashes := s1.hashes - {v.tick});
      SettlesSame(s1, t);
      SettlesTrans(s, s1, t);
    }
  }

  lemma {:induction false} ChecksSettle<W>(e: Engine<W>, s: State<W>, vs: seq<Visit>)
    requires Wf(s)
    ensures Settles(s, CheckHashes(s, vs))
    decreases |vs|
  {
    hide Wf, Settles, CheckVisit, Calm;
    if vs == [] {
      SettlesSame(s, s);
    } else {
      CheckVisitCalm(e, s, vs[0]);
      VisitSettles(e, s, vs[0]);
      ChecksSettle(e, CheckVisit(s, vs[0]), vs[1..]);
      SettlesTrans(s, CheckVisit(s, vs[0]), CheckHashes(s, vs));
    }
  }

  /** With two clients or more every tick opens a check that waits for all of them, and asks them. */
  lemma CheckOpens<W>(e: Engine<W>, s: State<W>, slow: seq<Evict>)
    requires Wf(s) && |s.clients| >= 2
    ensures var t := CheckForHashStart(s, slow);
      && s.currentTick in t.hashes && t.hashes[s.currentTick] == Checker(|s.clients|, map[])
      && EveryoneHas(s, t, RequestHash(s.currentTick))
  {
    var s1 := s.(hashes := s.hashes[s.currentTick := Checker(|s.clients|, map[])]);
    SameShape(s, s1);
    SentToEveryone(e, s, s1, RequestHash(s.currentTick), slow);
    RemoveAllBooks(Broadcast(s1, RequestHash(s.currentTick), Targets(s1, slow)), slow, [Notice(TooSlow)]);
    hide Wf, RemoveAll;
  }

  lemma {:induction false} RemoveAllBooks<W>(s: State<W>, vs: seq<Evict>, reason: seq<Msg>)
    ensures RemoveAll(s, vs, reason).hashes == s.hashes
    decreases |vs|
  {
    hide Remove;
    if vs != [] {
      RemoveBooks(s, vs[0], reason);
      RemoveAllBooks(Remove(s, vs[0], reason), vs[1..], reason);
    }
  }

  /** A tick up to its map requests. */
  ghost function BeforeJoins<W>(s: State<W>, c: TickChoice): State<W> {
    MaybeSendConnCounter(CheckHashes(CheckForHashStart(SendNewTick(s, c.slowOnTick), c.slowOnHash), c.visits), c.slowOnCount)
  }

  lemma TickSettles<W>(e: Engine<W>, s: State<W>, c: TickChoice)
    requires Wf(s)
    ensures Settles(s, BeforeJoins(s, c)) && Wf(BeforeJoins(s, c)) && BeforeJoins(s, c).status == s.status
  {
    hide Wf, Settles, SendAll, CheckHashes, Calm;
    var s0 := s.(currentTick := s.currentTick + 1);
    SameShape(s, s0);
    SettlesSame(s, s0);
    SendSettles(e, s, s0, NewTick, c.slowOnTick);
    var s1 := SendNewTick(s, c.slowOnTick);
    TickWf(e, s, c.slowOnTick);
    var h := s1.(hashes := s1.hashes[s1.currentTick := Checker(|s1.clients|, map[])]);
    SameShape(s1, h);
    SettlesSame(s1, h);
    SettlesSame(s1, s1);
    SendSettles(e, s1, h, RequestHash(s1.currentTick), c.slowOnHash);
    HashStartKeeps(e, s1, c.slowOnHash);
    var s2 := CheckForHashStart(s1, c.slowOnHash);
    SettlesTrans(s, s1, s2);
    CheckHashesCalm(e, s2, c.visits);
    ChecksSettle(e, s2, c.visits);
    var s3 := CheckHashes(s2, c.visits);
    ChecksStatus(e, s2, c.visits);
    SettlesTrans(s, s2, s3);
    SettlesSame(s3, s3);
    SendSettles(e, s3, s3, CurrentConnections(|s3.clients|), c.slowOnCount);
    CountKeeps(e, s3, c.slowOnCount);
    SettlesTrans(s, s3, BeforeJoins(s, c));
  }

  lemma TickWf<W>(e: Engine<W>, s: State<W>, slow: seq<Evict>)
    requires Wf(s)
    ensures Wf(SendNewTick(s, slow)) && SendNewTick(s, slow).status == s.status
  {
    var s0 := s.(currentTick := s.currentTick + 1);
    SameShape(s, s0);
    SendAllTold(e, s0, NewTick, slow);
    hide Wf, SendAll, GotIt, SameInbox;
  }

  lemma ChecksStatus<W>(e: Engine<W>, s: State<W>, vs: seq<Visit>)
    requires Wf(s)
    ensures CheckHashes(s, vs).status == s.status
  {
    CheckHashesCalm(e, s, vs);
    hide Wf, CheckHashes, SameInbox;
  }

  // ----- joining

  lemma AttachKeeps<W>(s: State<W>, login: string, id: int, seed: W)
    requires Wf(s) && NoneForgotten(s) && id >= 1
    ensures NoneForgotten(Attach(s, login, id, seed))
  {
    var s1 := if id in s.clients then Close(s, s.clients[id]).(clients := s.clients - {id}) else s;
    if id in s.clients {
      CloseSettles(s, id);
      SettlesKeeps(s, s1);
    }
    assert s.masterID == -1 ==> s.clients == map[];
    hide Wf;
    AddedKeeps(s1, Attach(s, login, id, seed), login, id);
  }

  lemma AddedKeeps<W>(s: State<W>, t: State<W>, login: string, id: int)
    requires NoneForgotten(s) && |t.inboxes| == |s.inboxes| + 1 && t.inboxes[..|s.inboxes|] == s.inboxes
    requires (s.clients == map[] && t.callbacks == s.callbacks && t.clients == map[id := |s.inboxes|])
      || (t.clients == s.clients && t.callbacks == s.callbacks + [Joiner(login, id, |s.inboxes|)])
    ensures NoneForgotten(t)
  {
    forall i: nat | i < |t.inboxes| ensures Shut(t, i) || IsClients(t, i) || IsJoiners(t, i) {
      if i < |s.inboxes| {
        assert t.inboxes[i] == s.inboxes[i];
        assert Shut(s, i) || IsClients(s, i) || IsJoiners(s, i);
        if IsJoiners(s, i) {
          var j :| j in s.callbacks && j.inbox == i;
          assert j in t.callbacks;
        }
      } else if !(id in t.clients && t.clients[id] == i) {
        assert t.callbacks[|s.callbacks|] == Joiner(login, id, i);
      }
    }
  }

  lemma RegisterNewKeeps<W>(e: Engine<W>, s: State<W>, login: string, admin: bool, seed: W, slow: seq<Evict>)
    requires Wf(s) && NoneForgotten(s) && login !in s.players
    ensures NoneForgotten(RegisterNew(s, login, admin, seed, slow))
  {
    hide Wf, NoneForgotten, SendAll, Attach, Settles;
    if s.players == map[] && !admin { return; }
    var s1 := CheckForNewGame(s);
    NewGameKeeps(e, s, map[]);
    EnrolKeeps(e, s1, login, admin, map[]);
    SettlesSame(s, Enrol(s1, login, admin));
    SendSettles(e, s, Enrol(s1, login, admin), NewClient(s.nextID), slow);
    AnnounceSync(e, s1, login, admin, slow);
    SettlesKeeps(s, Announce(s1, login, admin, slow));
    IdsArePositive(s);
    AttachKeeps(Announce(s1, login, admin, slow), login, s.nextID, seed);
  }

  lemma IdsArePositive<W>(s: State<W>)
    requires Wf(s)
    ensures s.nextID >= 1 && forall l :: l in s.players ==> s.players[l].id >= 1
  {}

  lemma RegisterKeeps<W>(e: Engine<W>, s: State<W>, login: string, admin: bool, seed: W, self: Evict, slow: seq<Evict>)
    requires Wf(s) && NoneForgotten(s)
    ensures NoneForgotten(Register(s, login, admin, seed, self, slow))
  {
    hide Wf, NoneForgotten, RegisterNew, Attach, Settles, Remove;
    if login !in s.players {
      RegisterNewKeeps(e, s, login, admin, seed, slow);
    } else {
      var s1 := CheckForNewGame(s);
      NewGameKeeps(e, s, map[]);
      IdsArePositive(s);
      var id := s1.players[login].id;
      var s2 := Remove(s1, self.(id := id), []);
      ReregisterSync(e, s, login, admin, seed, self);
      RemoveSettles(e, s1, self.(id := id), []);
      SettlesSame(s, s1);
      SettlesTrans(s, s1, s2);
      SettlesKeeps(s, s2);
      if login !in s2.players {
        RegisterNewKeeps(e, s2, login, admin, seed, slow);
      } else {
        var s3 := s2.(players := s2.players[login := Player(id, admin)]);
        SettlesSame(s2, s3);
        SettlesKeeps(s2, s3);
        AttachKeeps(s3, login, id, seed);
      }
    }
  }

  // ----- map requests

  lemma CloseFirstKeeps<W>(e: Engine<W>, s: State<W>)
    requires Wf(s) && s.callbacks != [] && NoneForgotten(s)
    ensures NoneForgotten(Close(s, s.callbacks[0].inbox).(callbacks := s.callbacks[1..]))
  {
    var t := Close(s, s.callbacks[0].inbox).(callbacks := s.callbacks[1..]);
    assert Waiting(s, s.callbacks[0]);
    hide Wf;
    forall i: nat | i < |t.inboxes| ensures Shut(t, i) || IsClients(t, i) || IsJoiners(t, i) {
      assert Shut(s, i) || IsClients(s, i) || IsJoiners(s, i);
      if IsJoiners(s, i) && i != s.callbacks[0].inbox {
        var j :| j in s.callbacks && j.inbox == i;
        assert j in s.callbacks[1..];
      }
    }
  }

  /** The first in line becomes a client: nobody is forgotten exactly if its id was no client's. */
  lemma AdmitKeepsIff<W>(s: State<W>, t: State<W>, origin: Origin<W>)
    requires Wf(s) && s.callbacks != [] && NoneForgotten(s)
    requires var j := s.callbacks[0];
      j.inbox < |s.inboxes| && t.clients == s.clients[j.id := j.inbox] && t.callbacks == s.callbacks[1..]
      && t.inboxes == s.inboxes[j.inbox := s.inboxes[j.inbox].(origin := origin)]
    ensures NoneForgotten(t) <==> s.callbacks[0].id !in s.clients
  {
    var j := s.callbacks[0];
    if j.id in s.clients {
      OwnInbox(s, j.id);
      hide Wf;
      assert !IsClients(t, s.clients[j.id]);
      assert !Shut(t, s.clients[j.id]) && !IsJoiners(t, s.clients[j.id]);
    } else {
      hide Wf;
      forall i: nat | i < |t.inboxes| ensures Shut(t, i) || IsClients(t, i) || IsJoiners(t, i) {
        assert Shut(s, i) || IsClients(s, i) || IsJoiners(s, i);
        if i == j.inbox {
          assert j.id in t.clients;
        } else if IsClients(s, i) {
          var c :| c in s.clients && s.clients[c] == i;
          assert c in t.clients && t.clients[c] == i;
        } else if IsJoiners(s, i) {
          var k :| k in s.callbacks && k.inbox == i;
          assert k in s.callbacks[1..];
        }
      }
    }
  }

  /** A client's inbox is open, and nobody else's. */
  lemma OwnInbox<W>(s: State<W>, id: int)
    requires Wf(s) && id in s.clients
    ensures s.clients[id] < |s.inboxes| && !s.inboxes[s.clients[id]].closed
    ensures forall c :: c in s.clients && c != id ==> s.clients[c] != s.clients[id]
    ensures forall j :: j in s.callbacks ==> j.inbox != s.clients[id]
  {
    ClientIsLive(s, id);
    forall j | j in s.callbacks ensures j.inbox != s.clients[id] { assert Waiting(s, j); }
  }

  lemma JoinKeeps<W>(e: Engine<W>, s: State<W>, slow: seq<Evict>)
    requires Wf(s) && s.status.Running? && s.callbacks != [] && NoneForgotten(s)
    ensures var t := JoinStep(e, s, slow);
      t.status.Running? && (s.callbacks[0].id !in s.clients || s.callbacks[0].login !in s.players) ==> NoneForgotten(t)
  {
    hide Wf, NoneForgotten, SendMaster, Close, Snapshot, Calm, Settles;
    var j := s.callbacks[0];
    if j.login !in s.players {
      CloseFirstKeeps(e, s);
      return;
    }
    SendMasterCalm(e, s, MapUpload(s.currentTick), slow);
    SendMasterSettles(e, s, MapUpload(s.currentTick), slow);
    var r := SendMaster(s, MapUpload(s.currentTick), slow);
    FirstInRange(s);
    if r.Hangs? { return; }
    SettlesParts(s, r.state);
    SettlesKeeps(s, r.state);
    if r.Failed? {
      CloseFirstKeeps(e, r.state);
    } else {
      AdmitKeepsIff(r.state, JoinStep(e, s, slow), Snapshot(e, r.state));
    }
  }

  lemma FirstInRange<W>(s: State<W>)
    requires Wf(s) && s.callbacks != []
    ensures s.callbacks[0].inbox < |s.inboxes|
  {
    assert Waiting(s, s.callbacks[0]);
  }

  lemma SettlesParts<W>(s: State<W>, t: State<W>)
    requires Settles(s, t)
    ensures |t.inboxes| == |s.inboxes| && t.callbacks == s.callbacks && t.clients.Keys <= s.clients.Keys
  {
    forall c | c in t.clients.Keys ensures c in s.clients.Keys { assert c in t.clients; }
  }

  /** One map request, in whatever state: whichever inboxes are full, nobody is forgotten exactly if the player has left
      the game or is not connected under that id already. */
  lemma JoinForgetsNobodyIff<W>(e: Engine<W>, s: State<W>)
    requires Wf(s) && s.status.Running? && Led(s) && s.callbacks != [] && NoneForgotten(s)
    ensures (forall slow :: NoneForgotten(JoinStep(e, s, slow)))
      <==> s.callbacks[0].login !in s.players || s.callbacks[0].id !in s.clients
  {
    hide Wf, NoneForgotten, SendMaster, Snapshot, JoinStep;
    var j := s.callbacks[0];
    if j.login !in s.players || j.id !in s.clients {
      forall slow ensures NoneForgotten(JoinStep(e, s, slow)) {
        JoinRuns(e, s, slow);
        JoinKeeps(e, s, slow);
      }
    } else {
      JoinForgets(e, s);
      assert !NoneForgotten(JoinStep(e, s, []));
    }
  }

  lemma JoinRuns<W>(e: Engine<W>, s: State<W>, slow: seq<Evict>)
    requires Wf(s) && s.status.Running? && Led(s) && s.callbacks != []
    ensures JoinStep(e, s, slow).status.Running?
  {
    hide SendMaster, Snapshot, SameInbox;
    var j := s.callbacks[0];
    assert Waiting(s, j);
    SendMasterCalm(e, s, MapUpload(s.currentTick), slow);
    assert s.masterID == -1 ==> s.clients == map[];
    var r := SendMaster(s, MapUpload(s.currentTick), slow);
    assert !r.Hangs? ==> SameInbox(e, s.inboxes[j.inbox], r.state.inboxes[j.inbox]);
    assert !r.Hangs? ==> Waiting(r.state, j);
  }

  lemma JoinForgets<W>(e: Engine<W>, s: State<W>)
    requires Wf(s) && Led(s) && s.callbacks != [] && NoneForgotten(s)
    requires s.callbacks[0].login in s.players && s.callbacks[0].id in s.clients
    ensures !NoneForgotten(JoinStep(e, s, []))
  {
    var j := s.callbacks[0];
    ClientIsLive(s, j.id);
    FirstInRange(s);
    PutInert(e, s, s.masterID, MapUpload(s.currentTick));
    PutSettles(e, s, s.masterID, MapUpload(s.currentTick));
    hide Wf, NoneForgotten, Settles, Snapshot, Put, Calm;
    var s1 := Put(s, s.clients[s.masterID], MapUpload(s.currentTick));
    SettlesParts(s, s1);
    SettlesKeeps(s, s1);
    AdmitKeepsIff(s1, JoinStep(e, s, []), Snapshot(e, s1));
  }

  // ----- runs

  /** Of those who wait for a map none is connected already, or waits twice. */
  ghost predicate OneEach<W>(s: State<W>) {
    && (forall j :: j in s.callbacks ==> j.id !in s.clients)
    && (forall i, k :: 0 <= i < k < |s.callbacks| ==> s.callbacks[i].id != s.callbacks[k].id)
  }

  lemma {:induction false} JoinsKeep<W>(e: Engine<W>, s: State<W>, slow: seq<seq<Evict>>)
    requires Wf(s) && s.status.Running? && NoneForgotten(s) && OneEach(s)
    ensures var t := JoinAll(e, s, s.callbacks, slow); t.status.Running? ==> NoneForgotten(t)
    decreases |s.callbacks|
  {
    hide Wf, NoneForgotten, JoinOne, OneEach;
    if s.callbacks == [] {
      assert s.(callbacks := []) == s;
    } else {
      var one, rest := if slow == [] then [] else slow[0], if slow == [] then [] else slow[1..];
      var t := JoinStep(e, s, one);
      FirstIsNew(s);
      JoinKeeps(e, s, one);
      JoinStepWf(e, s, one);
      if t.status.Running? {
        OneEachNext(e, s, one);
        JoinsKeep(e, t, rest);
      } else {
        Ended(e, t, rest);
      }
    }
  }

  lemma FirstIsNew<W>(s: State<W>)
    requires OneEach(s) && s.callbacks != []
    ensures s.callbacks[0].id !in s.clients
  {}

  lemma Ended<W>(e: Engine<W>, s: State<W>, slow: seq<seq<Evict>>)
    requires !s.status.Running? && Wf(s)
    ensures JoinAll(e, s, s.callbacks, slow) == s
  {}

  lemma JoinClients<W>(e: Engine<W>, s: State<W>, slow: seq<Evict>)
    requires Wf(s) && s.callbacks != []
    ensures JoinStep(e, s, slow).clients.Keys <= s.clients.Keys + {s.callbacks[0].id}
    ensures JoinStep(e, s, slow).callbacks == s.callbacks[1..]
  {
    hide Wf, SendMaster, Snapshot, Settles;
    SendMasterSettles(e, s, MapUpload(s.currentTick), slow);
    SettlesParts(s, SendMaster(s, MapUpload(s.currentTick), slow).state);
  }

  lemma OneEachNext<W>(e: Engine<W>, s: State<W>, slow: seq<Evict>)
    requires Wf(s) && s.callbacks != [] && OneEach(s)
    ensures OneEach(JoinStep(e, s, slow))
  {
    hide Wf, JoinStep;
    JoinClients(e, s, slow);
    var t := JoinStep(e, s, slow);
    assert forall i :: 0 <= i < |t.callbacks| ==> t.callbacks[i] == s.callbacks[i + 1];
    forall j | j in t.callbacks ensures j.id !in t.clients {
      var i :| 0 <= i < |t.callbacks| && t.callbacks[i] == j;
      assert s.callbacks[0].id != s.callbacks[i + 1].id;
      assert j.id !in t.clients.Keys;
    }
  }

  lemma OneEachSettles<W>(s: State<W>, t: State<W>)
    requires OneEach(s) && Settles(s, t)
    ensures OneEach(t)
  {}

  /** A step that makes map requests. */
  predicate IsTick<W>(ev: Event<W>) {
    ev.TimerTick? || ev.ForcedTick?
  }

  /** No event leaves an inbox behind, as long as nobody who waits for a map at a tick is connected already or waits
      twice. */
  lemma StepForgetsNobody<W>(e: Engine<W>, s: State<W>, ev: Event<W>)
    requires Wf(s) && NoneForgotten(s) && (IsTick(ev) ==> OneEach(s))
    ensures Step(e, s, ev).status.Running? ==> NoneForgotten(Step(e, s, ev))
  {
    hide Wf, NoneForgotten, OneEach, Register, Remove, RemoveAll, SendAll, HandleNewTick, HandleHash, Settles, SendOne;
    if !s.status.Running? { return; }
    match ev
    case Login(login, admin, seed, self, slow) => RegisterKeeps(e, s, login, admin, seed, self, slow);
    case Drop(evict) =>
      RemoveSettles(e, s, evict, []);
      SettlesKeeps(s, Remove(s, evict, []));
    case HashReport(from, reply) =>
      HashSettles(s, from, reply);
      SettlesKeeps(s, HandleHash(s, from, reply));
    case Restart(from, evicts) =>
      RemoveAllSettles(e, s, evicts, [Notice(ServerRestarting)]);
      SettlesKeeps(s, RemoveAll(s, evicts, [Notice(ServerRestarting)]));
    case ForcedTick(from, choice) => TickKeepsAll(e, s, choice);
    case TimerTick(choice) => TickKeepsAll(e, s, choice);
    case PingFrom(from, pingId, room) =>
      PingSettles(e, s, from, pingId, room);
      SettlesKeeps(s, SendOne(s, from, Ping(pingId), room));
    case GameMessage(from, kind, body, slow) =>
      SendAllDelivers(e, s, Game(kind, from, body), slow);
      SettlesKeeps(s, SendAll(s, Game(kind, from, body), slow));
  }

  lemma HashSettles<W>(s: State<W>, from: int, r: Reply)
    ensures Settles(s, HandleHash(s, from, r))
  {
    SettlesSame(s, HandleHash(s, from, r));
  }

  lemma PingSettles<W>(e: Engine<W>, s: State<W>, id: int, pingId: string, room: bool)
    requires Wf(s)
    ensures Settles(s, SendOne(s, id, Ping(pingId), room))
  {
    SettlesSame(s, s);
    if id in s.clients { PutSettles(e, s, id, Ping(pingId)); }
    hide Settles, Wf;
  }

  lemma TickKeepsAll<W>(e: Engine<W>, s: State<W>, c: TickChoice)
    requires Wf(s) && s.status.Running? && NoneForgotten(s) && OneEach(s)
    ensures HandleNewTick(e, s, c).status.Running? ==> NoneForgotten(HandleNewTick(e, s, c))
  {
    TickSettles(e, s, c);
    var t := BeforeJoins(s, c);
    SettlesKeeps(s, t);
    OneEachSettles(s, t);
    JoinsKeep(e, t, c.slowMasters);
    hide Wf, NoneForgotten, Settles, OneEach, JoinAll, SendNewTick, CheckForHashStart, CheckHashes, MaybeSendConnCounter;
  }

  /** At every tick so far nobody waited who was connected already, or twice. */
  ghost predicate NoDoubleLogin<W>(e: Engine<W>, evs: seq<Event<W>>) {
    forall n :: 0 <= n < |evs| && IsTick(evs[n]) ==> OneEach(Run(e, evs[..n]))
  }

  /** In every run without double logins, while the server runs, no connection is forgotten: every inbox ever made is
      closed, or a client's, or waits for its map. */
  lemma {:induction false} RunForgetsNobody<W>(e: Engine<W>, evs: seq<Event<W>>)
    requires NoDoubleLogin(e, evs)
    ensures Run(e, evs).status.Running? ==> NoneForgotten(Run(e, evs))
  {
    if evs != [] {
      var n := |evs| - 1;
      NoDoubleBefore(e, evs);
      RunForgetsNobody(e, evs[..n]);
      RunKeeps(e, evs[..n]);
      hide Wf, NoneForgotten, OneEach, NoDoubleLogin, InSync;
      if Run(e, evs[..n]).status.Running? {
        StepForgetsNobody(e, Run(e, evs[..n]), evs[n]);
      }
    }
  }

  lemma NoDoubleBefore<W>(e: Engine<W>, evs: seq<Event<W>>)
    requires NoDoubleLogin(e, evs) && evs != []
    ensures NoDoubleLogin(e, evs[..|evs| - 1])
    ensures IsTick(evs[|evs| - 1]) ==> OneEach(Run(e, evs[..|evs| - 1]))
  {
    var before := evs[..|evs| - 1];
    hide OneEach, Run;
    forall n | 0 <= n < |before| && IsTick(before[n]) ensures OneEach(Run(e, before[..n])) {
      assert before[..n] == evs[..n] && before[n] == evs[n];
    }
  }

  // ----- a player who logs in twice before the next tick

  /** The map requests of a tick that finds room everywhere, one after the other. */
  lemma TwoJoins<W>(e: Engine<W>, s: State<W>)
    requires |s.callbacks| == 2 && !s.status.Stuck?
    ensures JoinStep(e, s, []).callbacks == s.callbacks[1..]
    ensures !JoinStep(e, s, []).status.Stuck? ==>
      JoinAll(e, s, s.callbacks, []).inboxes == JoinStep(e, JoinStep(e, s, []), []).inboxes
      && JoinAll(e, s, s.callbacks, []).clients == JoinStep(e, JoinStep(e, s, []), []).clients
      && JoinAll(e, s, s.callbacks, []).callbacks == JoinStep(e, JoinStep(e, s, []), []).callbacks
  {
    hide JoinOne;
    var s1 := JoinStep(e, s, []);
    if !s1.status.Stuck? {
      var s2 := JoinStep(e, s1, []);
      assert JoinAll(e, s, s.callbacks, []) == JoinAll(e, s1, s1.callbacks, []);
      assert JoinAll(e, s1, s1.callbacks, []) == JoinAll(e, s2, [], []);
    }
  }

  lemma FirstJoins<W>(e: Engine<W>, s: State<W>)
    requires Wf(s) && s.status.Running? && s.callbacks != [] && s.callbacks[0].login in s.players && s.masterID in s.clients
    ensures var t := JoinStep(e, s, []);
      && Wf(t) && t.status.Running? && Led(t) && t.players == s.players && t.clients == s.clients[s.callbacks[0].id := s.callbacks[0].inbox]
  {
    JoinStepWf(e, s, []);
    FirstInRange(s);
    OwnInbox(s, s.masterID);
    hide Wf, Snapshot;
  }

  lemma SecondIsForgotten<W>(e: Engine<W>, s: State<W>)
    requires Wf(s) && s.status.Running? && s.masterID in s.clients && NoneForgotten(s) && |s.callbacks| == 2
    requires s.callbacks[0].id == s.callbacks[1].id && s.callbacks[0].id !in s.clients
    requires s.callbacks[0].login in s.players && s.callbacks[1].login in s.players
    ensures !NoneForgotten(JoinAll(e, s, s.callbacks, []))
  {
    TwoJoins(e, s);
    FirstJoins(e, s);
    JoinKeeps(e, s, []);
    var s1 := JoinStep(e, s, []);
    hide Wf, JoinStep, JoinAll, NoneForgotten;
    JoinForgets(e, s1);
    SettlesSame(JoinAll(e, s, s.callbacks, []), JoinStep(e, s1, []));
    if NoneForgotten(JoinAll(e, s, s.callbacks, [])) { SettlesKeeps(JoinAll(e, s, s.callbacks, []), JoinStep(e, s1, [])); }
  }

  lemma AgainLogin<W>(e: Engine<W>, s: State<W>, login: string, seed: W)
    requires Wf(s) && s.status.Running? && login in s.players && s.players[login] == Player(s.players[login].id, false)
    requires s.players[login].id !in s.clients && s.clients != map[] && s.masterID != -1
    ensures Looks(Step(e, s, Login(login, false, seed, NOBODY, [])), s.nextID, s.clients, s.players, s.masterID,
                  s.callbacks + [Joiner(login, s.players[login].id, |s.inboxes|)], |s.inboxes| + 1)
  {
    assert s.players[login := s.players[login]] == s.players;
    hide Wf;
  }

  function TwoLogins<W>(seed: W): seq<Event<W>> {
    [Login("a", true, seed, NOBODY, []), Login("b", false, seed, NOBODY, []), Login("b", false, seed, NOBODY, [])]
  }

  lemma TwoLoginsWait<W>(e: Engine<W>, seed: W)
    ensures Looks(Run(e, TwoLogins(seed)), 3, map[1 := 0], map["a" := Player(1, true), "b" := Player(2, false)], 1,
                  [Joiner("b", 2, 1), Joiner("b", 2, 2)], 3)
  {
    hide Step, Wf;
    var evs := TwoLogins(seed);
    OneMore(e, evs, 0);
    OneMore(e, evs, 1);
    OneMore(e, evs, 2);
    assert evs[..3] == evs && evs[..0] == [];
    FirstLogin(e, "a", seed);
    RunKeeps(e, evs[..1]);
    assert "a" in Run(e, evs[..1]).players;
    LateLogin(e, Run(e, evs[..1]), "b", false, seed);
    RunKeeps(e, evs[..2]);
    assert 1 in Run(e, evs[..2]).clients;
    AgainLogin(e, Run(e, evs[..2]), "b", seed);
  }

  lemma TickForgets<W>(e: Engine<W>, s: State<W>)
    requires Wf(s) && s.status.Running? && s.masterID in s.clients && NoneForgotten(s) && |s.callbacks| == 2
    requires s.callbacks[0].id == s.callbacks[1].id && s.callbacks[0].id !in s.clients
    requires s.callbacks[0].login in s.players && s.callbacks[1].login in s.players
    ensures !NoneForgotten(Step(e, s, TimerTick(QUIET_TICK)))
  {
    hide Wf, NoneForgotten, Settles, JoinAll, SendNewTick, CheckForHashStart, CheckHashes, MaybeSendConnCounter;
    QuietTick(e, s);
    TickSettles(e, s, QUIET_TICK);
    SettlesKeeps(s, BeforeJoins(s, QUIET_TICK));
    SecondIsForgotten(e, BeforeJoins(s, QUIET_TICK));
  }

  lemma NoTicksYet<W>(e: Engine<W>, seed: W)
    ensures NoDoubleLogin(e, TwoLogins(seed))
  {}

  /** The first connection is then neither a client nor closed: nothing is ever sent to it again. */
  lemma DoubleLoginForgets<W>(e: Engine<W>, seed: W)
    ensures !NoneForgotten(Run(e, TwoLogins(seed) + [TimerTick(QUIET_TICK)]))
  {
    hide Wf, NoneForgotten, Step, InSync, NoDoubleLogin, TwoLogins;
    var evs := TwoLogins(seed);
    TwoLoginsWait(e, seed);
    RunKeeps(e, evs);
    NoTicksYet(e, seed);
    RunForgetsNobody(e, evs);
    TickForgets(e, Run(e, evs));
    assert (evs + [TimerTick(QUIET_TICK)])[..|evs|] == evs;
  }
}
