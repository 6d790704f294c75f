/** The protocol's guarantees over whole runs. */
module LockstepTheorems {
  import opened GameClient
  import opened RegistryModel
  import opened RegistryInvariants

  // ----- hash checks

  lemma DumpCalm<W>(e: Engine<W>, s: State<W>, id: int, d: Dump)
    requires Wf(s)
    ensures Wf(DumpMap(s, id, d)) && Calm(e, s, DumpMap(s, id, d))
  {
    if id in s.clients && d.room {
      PutInert(e, s, id, MapUpload(s.currentTick));
    } else {
      RemoveCalm(e, s, d.evict.(id := id), [Notice(TooSlow)]);
    }
  }

  lemma {:induction false} EvictRowsCalm<W>(e: Engine<W>, s: State<W>, unsynced: set<int>, rows: seq<Row>)
    requires Wf(s)
    ensures Wf(EvictRows(s, unsynced, rows)) && Calm(e, s, EvictRows(s, unsynced, rows))
    ensures forall r :: r in rows && r.id in unsynced ==> r.id !in EvictRows(s, unsynced, rows).clients
    decreases |rows|
  {
    if rows == [] {
      CalmRefl(e, s);
    } else if rows[0].id !in unsynced {
      EvictRowsCalm(e, s, unsynced, rows[1..]);
    } else {
      var s1 := DumpMap(s, rows[0].id, rows[0].dump);
      DumpCalm(e, s, rows[0].id, rows[0].dump);
      var v := rows[0].evict.(id := rows[0].id);
      RemoveCalm(e, s1, v, [Notice(OutOfSync)]);
      var s2 := Remove(s1, v, [Notice(OutOfSync)]);
      EvictRowsCalm(e, s2, unsynced, rows[1..]);
      CalmTrans(e, s, s1, s2);
      CalmTrans(e, s, s2, EvictRows(s, unsynced, rows));
    }
  }

  lemma CheckVisitCalm<W>(e: Engine<W>, s: State<W>, v: Visit)
    requires Wf(s)
    ensures Wf(CheckVisit(s, v)) && Calm(e, s, CheckVisit(s, v))
  {
    CalmRefl(e, s);
    if v.tick in s.hashes && (v.expired || s.hashes[v.tick].waiting <= 0) {
      var c := s.hashes[v.tick];
      var s1 := CheckHashesOne(s, c, v);
      if s.masterID != -1 && Unsynced(c, s.masterID) != {} {
        var s0 := DumpMap(s, s.masterID, v.dump);
        DumpCalm(e, s, s.masterID, v.dump);
        EvictRowsCalm(e, s0, Unsynced(c, s.masterID), v.rows);
        CalmTrans(e, s, s0, s1);
      }
      var t := s1.(hashes := s1.hashes - {v.tick});
      SameShape(s1, t);
      forall i | 0 <= i < |s.inboxes| ensures SameInbox(e, s.inboxes[i], t.inboxes[i]) {}
    }
  }

  lemma {:induction false} CheckHashesCalm<W>(e: Engine<W>, s: State<W>, vs: seq<Visit>)
    requires Wf(s)
    ensures Wf(CheckHashes(s, vs)) && Calm(e, s, CheckHashes(s, vs))
    decreases |vs|
  {
    if vs == [] {
      CalmRefl(e, s);
    } else {
      CheckVisitCalm(e, s, vs[0]);
      CheckHashesCalm(e, CheckVisit(s, vs[0]), vs[1..]);
      CalmTrans(e, s, CheckVisit(s, vs[0]), CheckHashes(s, vs));
    }
  }

  /** A checker whose reports agree evicts nobody, whoever is master when it fires. */
  lemma UniformEvictsNobody<W>(s: State<W>, c: Checker, v: Visit)
    requires Uniform(c)
    ensures CheckHashesOne(s, c, v) == s
  {
    if s.masterID in c.hashes {
      assert forall id :: id in c.hashes ==> c.hashes[id] == c.hashes[s.masterID];
    }
    assert Unsynced(c, s.masterID) == {};
  }

  lemma {:induction false} UniformCheckHashes<W>(s: State<W>, vs: seq<Visit>)
    requires forall t :: t in s.hashes ==> Uniform(s.hashes[t])
    ensures CheckHashes(s, vs) == s.(hashes := CheckHashes(s, vs).hashes)
    decreases |vs|
  {
    if vs != [] {
      if vs[0].tick in s.hashes { UniformEvictsNobody(s, s.hashes[vs[0].tick], vs[0]); }
      UniformCheckHashes(CheckVisit(s, vs[0]), vs[1..]);
    }
  }

  // ----- ticks

  lemma TickKeeps<W>(e: Engine<W>, s: State<W>, c: TickChoice, truth: map<int, int>) returns (truth': map<int, int>)
    requires Wf(s) && s.status.Running? && InSync(e, s)
    ensures var t := HandleNewTick(e, s, c);
      && Wf(t) && InSync(e, t) && Quiet(e, t)
      && (Truthful(e, s, truth) ==> Truthful(e, t, truth'))
      && (Safe(s) ==> Safe(t) && t.status.Running?)
  {
    var s0 := s.(currentTick := s.currentTick + 1);
    SameShape(s, s0);
    var s1 := SendNewTick(s, c.slowOnTick);
    SendAllTold(e, s0, NewTick, c.slowOnTick);
    ToldKeeps(e, s0, NewTick, s1);
    assert InSync(e, s0) && (Safe(s) ==> Safe(s0));
    var s2 := CheckForHashStart(s1, c.slowOnHash);
    HashStartKeeps(e, s1, c.slowOnHash);
    var s3 := CheckHashes(s2, c.visits);
    CheckHashesCalm(e, s2, c.visits);
    CalmKeeps(e, s2, s3);
    var s4 := MaybeSendConnCounter(s3, c.slowOnCount);
    CountKeeps(e, s3, c.slowOnCount);
    truth' := truth;
    if Truthful(e, s, truth) {
      NewTickTruthful(e, s, c.slowOnTick, truth);
      truth' := RequestHashTruthful(e, s1, c.slowOnHash, truth);
      CalmTruthful(e, s2, s3, truth');
      CountTruthful(e, s3, c.slowOnCount, truth');
    }
    JoinAllKeeps(e, s4, c.slowMasters, truth');
  }

  lemma HashStartKeeps<W>(e: Engine<W>, s: State<W>, slow: seq<Evict>)
    requires Wf(s)
    ensures var t := CheckForHashStart(s, slow);
      && Wf(t) && t.status == s.status && (Safe(s) ==> Safe(t))
      && (InSync(e, s) ==> InSync(e, t)) && (Quiet(e, s) ==> Quiet(e, t))
  {
    hide SendAll, ConsumeAll, Same;
    var s1 := s.(hashes := s.hashes[s.currentTick := Checker(|s.clients|, map[])]);
    SameShape(s, s1);
    SendAllTold(e, s1, RequestHash(s.currentTick), slow);
    ToldKeeps(e, s1, RequestHash(s.currentTick), SendAll(s1, RequestHash(s.currentTick), slow));
    assert (InSync(e, s) ==> InSync(e, s1)) && (Quiet(e, s) ==> Quiet(e, s1)) && (Safe(s) ==> Safe(s1));
  }

  lemma CountKeeps<W>(e: Engine<W>, s: State<W>, slow: seq<Evict>)
    requires Wf(s)
    ensures var t := MaybeSendConnCounter(s, slow);
      && Wf(t) && t.status == s.status && (Safe(s) ==> Safe(t))
      && (InSync(e, s) ==> InSync(e, t)) && (Quiet(e, s) ==> Quiet(e, t))
  {
    hide SendAll, ConsumeAll;
    SendAllTold(e, s, CurrentConnections(|s.clients|), slow);
    ToldKeeps(e, s, CurrentConnections(|s.clients|), SendAll(s, CurrentConnections(|s.clients|), slow));
  }

  lemma CountTruthful<W>(e: Engine<W>, s: State<W>, slow: seq<Evict>, truth: map<int, int>)
    requires Wf(s) && Truthful(e, s, truth)
    ensures Wf(MaybeSendConnCounter(s, slow)) && Truthful(e, MaybeSendConnCounter(s, slow), truth)
  {
    SendAllTold(e, s, CurrentConnections(|s.clients|), slow);
    ToldTruthful(e, s, CurrentConnections(|s.clients|), SendAll(s, CurrentConnections(|s.clients|), slow),
                 s.currentTick, truth, truth);
  }

  // ----- logging in

  lemma AttachWf<W>(s: State<W>, login: string, id: int, seed: W)
    requires Wf(s) && id >= 1
    ensures Wf(Attach(s, login, id, seed))
  {
    var s1 := if id in s.clients then Close(s, s.clients[id]).(clients := s.clients - {id}) else s;
    if id in s.clients {
      assert Live(s, s.clients[id]);
      forall c | c in s1.clients ensures Live(s1, s1.clients[c]) { assert Live(s, s.clients[c]); }
      forall j | j in s1.callbacks ensures Waiting(s1, j) { assert Waiting(s, j); }
      assert s1.masterID == -1 ==> s1.clients.Keys == {};
    }
    assert Wf(s1);
    var t := Attach(s, login, id, seed);
    assert t.inboxes[..|s1.inboxes|] == s1.inboxes;
    forall c | c in s1.clients ensures c in t.clients && Live(t, t.clients[c]) && t.clients[c] < |s1.inboxes| {
      assert Live(s1, s1.clients[c]);
    }
    forall j | j in s1.callbacks ensures Waiting(t, j) { assert Waiting(s1, j); }
    forall k | 0 <= k < |s1.callbacks| ensures s1.callbacks[k].inbox < |s1.inboxes| {
      assert s1.callbacks[k] in s1.callbacks;
    }
  }

  lemma AttachSync<W>(e: Engine<W>, s: State<W>, login: string, id: int, seed: W)
    requires Wf(s) && id >= 1 && InSync(e, s)
    ensures Wf(Attach(s, login, id, seed)) && InSync(e, Attach(s, login, id, seed))
  {
    AttachWf(s, login, id, seed);
    var t := Attach(s, login, id, seed);
    if s.masterID != -1 {
      forall c | c in t.clients ensures c in s.clients && t.inboxes[t.clients[c]] == s.inboxes[s.clients[c]] {
        assert Live(s, s.clients[c]);
      }
    }
  }

  /** What a new session needs of the old ones: their clients carry older session numbers. */
  ghost predicate Past<W>(s: State<W>) {
    && (forall b :: b in s.inboxes && b.origin.Started? ==> b.origin.session <= s.session)
    && (forall t :: t in s.hashes ==> Uniform(s.hashes[t]))
  }

  lemma AttachFreshTruthful<W>(e: Engine<W>, s: State<W>, login: string, id: int, seed: W)
    requires Wf(s) && id >= 1 && Past(s) && s.masterID == -1 && s.currentTick == 0
    ensures Wf(Attach(s, login, id, seed)) && Truthful(e, Attach(s, login, id, seed), map[])
  {
    AttachWf(s, login, id, seed);
    var t := Attach(s, login, id, seed);
    forall i: nat | i < |t.inboxes| ensures Reports(e, t.inboxes[i], t.session, t.currentTick, map[]) {
      if i < |s.inboxes| { assert s.inboxes[i] in s.inboxes; }
    }
  }

  lemma AttachPendingTruthful<W>(e: Engine<W>, s: State<W>, login: string, id: int, seed: W, truth: map<int, int>)
    requires Wf(s) && id >= 1 && Truthful(e, s, truth) && s.masterID != -1
    ensures Wf(Attach(s, login, id, seed)) && Truthful(e, Attach(s, login, id, seed), truth)
  {
    AttachWf(s, login, id, seed);
    var t := Attach(s, login, id, seed);
    forall c | c in t.clients ensures t.inboxes[t.clients[c]] == s.inboxes[s.clients[c]] { assert Live(s, s.clients[c]); }
    forall i: nat | i < |t.inboxes| ensures Reports(e, t.inboxes[i], t.session, t.currentTick, truth) {
      if i < |s.inboxes| {
        assert s.inboxes[i] in s.inboxes;
        assert t.inboxes[i].(closed := false) == s.inboxes[i].(closed := false);
        assert t.inboxes[i].origin.Started? ==> At(e, t.inboxes[i]) == At(e, s.inboxes[i]);
      }
    }
  }

  lemma NewGameKeeps<W>(e: Engine<W>, s: State<W>, truth: map<int, int>)
    requires Wf(s)
    ensures var t := CheckForNewGame(s);
      && Wf(t) && (InSync(e, s) ==> InSync(e, t)) && (Safe(s) ==> Safe(t))
      && (s.clients != map[] && Truthful(e, s, truth) ==> Truthful(e, t, truth))
  {
    SameShape(s, CheckForNewGame(s));
  }

  /** The player entry of a new login. */
  ghost function Enrol<W>(s: State<W>, login: string, admin: bool): State<W> {
    s.(nextID := s.nextID + 1, players := s.players[login := Player(s.nextID, admin)])
  }

  lemma EnrolKeeps<W>(e: Engine<W>, s: State<W>, login: string, admin: bool, truth: map<int, int>)
    requires Wf(s) && login !in s.players
    ensures var t := Enrol(s, login, admin);
      && Wf(t) && (InSync(e, s) ==> InSync(e, t))
      && (Truthful(e, s, truth) ==> Truthful(e, t, truth))
      && (Safe(s) && (forall j :: j in s.callbacks ==> j.login != login) ==> Safe(t))
  {
    var t := Enrol(s, login, admin);
    assert forall j :: Waiting(s, j) == Waiting(t, j);
    assert forall i: nat :: Live(s, i) == Live(t, i);
  }

  lemma AnnounceSync<W>(e: Engine<W>, s: State<W>, login: string, admin: bool, slow: seq<Evict>)
    requires Wf(s) && login !in s.players
    ensures var t := Announce(s, login, admin, slow);
      && Wf(t) && (InSync(e, s) ==> InSync(e, t)) && t.status == s.status
      && Told(e, Enrol(s, login, admin), NewClient(s.nextID), t)
      && (forall c :: c in s.clients && (forall v :: v in slow ==> v.id != c) ==> c in t.clients)
  {
    var s2 := Enrol(s, login, admin);
    EnrolKeeps(e, s, login, admin, map[]);
    SendAllTold(e, s2, NewClient(s.nextID), slow);
    ToldKeeps(e, s2, NewClient(s.nextID), Announce(s, login, admin, slow));
  }

  lemma RegisterNewSync<W>(e: Engine<W>, s: State<W>, login: string, admin: bool, seed: W, slow: seq<Evict>)
    requires Wf(s) && InSync(e, s) && login !in s.players
    ensures Wf(RegisterNew(s, login, admin, seed, slow)) && InSync(e, RegisterNew(s, login, admin, seed, slow))
    ensures RegisterNew(s, login, admin, seed, slow).status == s.status
  {
    if s.players == map[] && !admin { return; }
    var s1 := CheckForNewGame(s);
    NewGameKeeps(e, s, map[]);
    AnnounceSync(e, s1, login, admin, slow);
    var s3 := Announce(s1, login, admin, slow);
    AttachSync(e, s3, login, s1.nextID, seed);
    if s1.nextID in s3.clients { assert Live(s3, s3.clients[s1.nextID]); }
  }

  /** (a) A new player's NEW_CLIENT message finds room at one client at least, if there is any. */
  ghost predicate SomeoneKeepsUp<W>(s: State<W>, login: string, slow: seq<Evict>) {
    login !in s.players && s.clients != map[] ==>
      exists c :: c in s.clients && forall v :: v in slow ==> v.id != c
  }

  /** (b) A login whose map request is still pending logs in again only while its own session goes on. */
  ghost predicate NoStaleRequest<W>(s: State<W>, login: string) {
    || (login in s.players && s.clients.Keys != {s.players[login].id})
    || (forall j :: j in s.callbacks ==> j.login != login)
  }

  lemma EmptyRemoveAll<W>(s: State<W>, vs: seq<Evict>, reason: seq<Msg>)
    requires s.clients == map[]
    ensures RemoveAll(s, vs, reason) == s
    decreases |vs|
  {
    if vs != [] { EmptyRemoveAll(s, vs[1..], reason); }
  }

  lemma EmptySendAll<W>(s: State<W>, m: Msg, slow: seq<Evict>)
    requires s.clients == map[]
    ensures SendAll(s, m, slow) == s
  {
    assert Targets(s, slow) == {};
    assert Broadcast(s, m, {}).inboxes == s.inboxes;
    EmptyRemoveAll(s, slow, [Notice(TooSlow)]);
  }

  lemma AnnounceSafe<W>(e: Engine<W>, s: State<W>, login: string, admin: bool, slow: seq<Evict>)
    requires Wf(s) && login !in s.players && Safe(s)
    requires SomeoneKeepsUp(s, login, slow) && (forall j :: j in s.callbacks ==> j.login != login)
    ensures var t := Announce(s, login, admin, slow);
      && Wf(t) && Safe(t) && s.nextID !in t.clients
      && login in t.players && t.players[login].id == s.nextID < t.nextID
  {
    AnnounceSync(e, s, login, admin, slow);
    EnrolKeeps(e, s, login, admin, map[]);
    var s2 := Enrol(s, login, admin);
    var t := Announce(s, login, admin, slow);
    ToldKeeps(e, s2, NewClient(s.nextID), t);
    assert t.clients.Keys <= s.clients.Keys;
    if s.clients == map[] { EmptySendAll(s2, NewClient(s.nextID), slow); } else { assert t.clients != map[]; }
  }

  lemma AttachSafe<W>(s: State<W>, login: string, id: int, seed: W)
    requires Wf(s) && Safe(s) && id !in s.clients && id < s.nextID && login in s.players && s.players[login].id == id
    ensures Safe(Attach(s, login, id, seed))
  {
    var t := Attach(s, login, id, seed);
    forall j | j in t.callbacks && j.login in t.players ensures j.id == t.players[j.login].id {
      if j !in s.callbacks { assert j == Joiner(login, id, |s.inboxes|); }
    }
  }

  lemma RegisterNewSafe<W>(e: Engine<W>, s: State<W>, login: string, admin: bool, seed: W, slow: seq<Evict>)
    requires Wf(s) && login !in s.players && Safe(s)
    requires SomeoneKeepsUp(s, login, slow) && (forall j :: j in s.callbacks ==> j.login != login)
    ensures Safe(RegisterNew(s, login, admin, seed, slow))
  {
    if s.players == map[] && !admin { return; }
    var s1 := CheckForNewGame(s);
    NewGameKeeps(e, s, map[]);
    AnnounceSafe(e, s1, login, admin, slow);
    AttachSafe(Announce(s1, login, admin, slow), login, s.nextID, seed);
  }

  lemma PastOf<W>(e: Engine<W>, s: State<W>, truth: map<int, int>)
    requires Wf(s) && Truthful(e, s, truth)
    ensures Past(s)
  {
    assert forall b :: b in s.inboxes ==> Reports(e, b, s.session, s.currentTick, truth);
  }

  lemma AnnounceTruthful<W>(e: Engine<W>, s: State<W>, login: string, admin: bool, slow: seq<Evict>, truth: map<int, int>)
    requires Wf(s) && login !in s.players && Truthful(e, s, truth) && s.clients != map[]
    requires SomeoneKeepsUp(s, login, slow)
    ensures var t := Announce(s, login, admin, slow);
      Wf(t) && Truthful(e, t, truth) && t.masterID != -1
  {
    AnnounceSync(e, s, login, admin, slow);
    EnrolKeeps(e, s, login, admin, truth);
    var t := Announce(s, login, admin, slow);
    ToldTruthful(e, Enrol(s, login, admin), NewClient(s.nextID), t, s.currentTick, truth, truth);
    assert t.clients != map[];
  }

  lemma RegisterNewTruthful<W>(e: Engine<W>, s: State<W>, login: string, admin: bool, seed: W, slow: seq<Evict>, truth: map<int, int>)
      returns (truth': map<int, int>)
    requires Wf(s) && login !in s.players && Safe(s) && Truthful(e, s, truth)
    requires SomeoneKeepsUp(s, login, slow)
    ensures Wf(RegisterNew(s, login, admin, seed, slow)) && Truthful(e, RegisterNew(s, login, admin, seed, slow), truth')
  {
    if s.players == map[] && !admin { return truth; }
    var s1 := CheckForNewGame(s);
    NewGameKeeps(e, s, truth);
    if s.clients == map[] {
      PastOf(e, s, truth);
      EnrolKeeps(e, s1, login, admin, truth);
      EmptySendAll(Enrol(s1, login, admin), NewClient(s.nextID), slow);
      AttachFreshTruthful(e, Enrol(s1, login, admin), login, s.nextID, seed);
      truth' := map[];
    } else {
      AnnounceTruthful(e, s, login, admin, slow, truth);
      AttachPendingTruthful(e, Announce(s, login, admin, slow), login, s.nextID, seed, truth);
      truth' := truth;
    }
  }

  /** A known player logs in again. */
  ghost function Readmit<W>(s: State<W>, login: string, admin: bool): State<W>
    requires login in s.players
  {
    s.(players := s.players[login := Player(s.players[login].id, admin)])
  }

  lemma ReadmitKeeps<W>(e: Engine<W>, s: State<W>, login: string, admin: bool, truth: map<int, int>)
    requires Wf(s) && login in s.players
    ensures var t := Readmit(s, login, admin);
      && Wf(t) && (InSync(e, s) ==> InSync(e, t)) && (Safe(s) ==> Safe(t))
      && (Truthful(e, s, truth) ==> Truthful(e, t, truth))
  {
    var t := Readmit(s, login, admin);
    assert forall j :: Waiting(s, j) == Waiting(t, j);
    assert forall i: nat :: Live(s, i) == Live(t, i);
  }

  lemma ReregisterSync<W>(e: Engine<W>, s: State<W>, login: string, admin: bool, seed: W, self: Evict)
    requires Wf(s) && login in s.players
    ensures var t := Remove(CheckForNewGame(s), self.(id := s.players[login].id), []);
      && Wf(t) && (InSync(e, s) ==> InSync(e, t)) && t.status == s.status
      && (login in t.players ==>
            && t.players[login].id == s.players[login].id
            && Wf(Readmit(t, login, admin)) && (InSync(e, s) ==> InSync(e, Readmit(t, login, admin))))
  {
    hide Remove, ConsumeAll;
    var s1 := CheckForNewGame(s);
    NewGameKeeps(e, s, map[]);
    RemoveCalm(e, s1, self.(id := s.players[login].id), []);
    var t := Remove(s1, self.(id := s.players[login].id), []);
    CalmKeeps(e, s1, t);
    if login in t.players { ReadmitKeeps(e, t, login, admin, map[]); }
  }

  lemma RegisterSync<W>(e: Engine<W>, s: State<W>, login: string, admin: bool, seed: W, self: Evict, slow: seq<Evict>)
    requires Wf(s) && InSync(e, s)
    ensures var t := Register(s, login, admin, seed, self, slow); Wf(t) && InSync(e, t) && t.status == s.status
  {
    hide RegisterNew, Remove, InSync, CheckForNewGame;
    if login !in s.players {
      RegisterNewSync(e, s, login, admin, seed, slow);
    } else {
      ReregisterSync(e, s, login, admin, seed, self);
      var id := s.players[login].id;
      var s2 := Remove(CheckForNewGame(s), self.(id := id), []);
      assert CheckForNewGame(s).players == s.players by { SamePlayers(s); }
      if login !in s2.players {
        RegisterNewSync(e, s2, login, admin, seed, slow);
      } else {
        AttachSync(e, Readmit(s2, login, admin), login, id, seed);
      }
    }
  }

  lemma SamePlayers<W>(s: State<W>)
    ensures CheckForNewGame(s).players == s.players
  {}

  lemma RegisterSafe<W>(e: Engine<W>, s: State<W>, login: string, admin: bool, seed: W, self: Evict, slow: seq<Evict>)
    requires Wf(s) && Safe(s) && SomeoneKeepsUp(s, login, slow) && NoStaleRequest(s, login)
    ensures Safe(Register(s, login, admin, seed, self, slow))
  {
    hide Attach, RegisterNew, Remove, InSync, Quiet, ConsumeAll;
    if login !in s.players {
      RegisterNewSafe(e, s, login, admin, seed, slow);
      return;
    }
    var s1 := CheckForNewGame(s);
    NewGameKeeps(e, s, map[]);
    var id := s.players[login].id;
    var s2 := Remove(s1, self.(id := id), []);
    RemoveCalm(e, s1, self.(id := id), []);
    CalmKeeps(e, s1, s2);
    if login !in s2.players {
      assert id in s.clients && s2.clients.Keys == s.clients.Keys - {id} == {};
      assert s.clients.Keys == {id};
      RegisterNewSafe(e, s2, login, admin, seed, slow);
    } else {
      ReadmitKeeps(e, s2, login, admin, map[]);
      AttachSafe(Readmit(s2, login, admin), login, id, seed);
    }
  }

  lemma RegisterTruthful<W>(e: Engine<W>, s: State<W>, login: string, admin: bool, seed: W, self: Evict, slow: seq<Evict>, truth: map<int, int>)
      returns (truth': map<int, int>)
    requires Wf(s) && Safe(s) && Truthful(e, s, truth) && SomeoneKeepsUp(s, login, slow)
    ensures var t := Register(s, login, admin, seed, self, slow); Wf(t) && Truthful(e, t, truth')
  {
    truth' := truth;
    if login !in s.players {
      truth' := RegisterNewTruthful(e, s, login, admin, seed, slow, truth);
      return;
    }
    var s1 := CheckForNewGame(s);
    NewGameKeeps(e, s, truth);
    var id := s.players[login].id;
    var s2 := Remove(s1, self.(id := id), []);
    RemoveCalm(e, s1, self.(id := id), []);
    if s.clients == map[] {
      PastOf(e, s, truth);
      ReadmitKeeps(e, s2, login, admin, truth);
      AttachFreshTruthful(e, Readmit(s2, login, admin), login, id, seed);
      truth' := map[];
      return;
    }
    CalmTruthful(e, s, s2, truth);
    CalmKeeps(e, s, s2);
    if login !in s2.players {
      truth' := RegisterNewTruthful(e, s2, login, admin, seed, slow, truth);
    } else {
      ReadmitKeeps(e, s2, login, admin, truth);
      AttachPendingTruthful(e, Readmit(s2, login, admin), login, id, seed, truth);
    }
  }

  // ----- one event

  /** (c) A hash report is one that a client of this session made. */
  ghost predicate HonestReport<W>(e: Engine<W>, s: State<W>, from: int, r: Reply) {
    exists b :: b in s.inboxes && b.id == from && b.origin.Started? && b.origin.session == s.session && r in At(e, b).replies
  }

  /** Clauses (a) and (b) at one event. */
  ghost predicate SessionClauses<W>(s: State<W>, ev: Event<W>) {
    ev.Login? ==> SomeoneKeepsUp(s, ev.login, ev.slow) && NoStaleRequest(s, ev.login)
  }

  lemma HashSync<W>(e: Engine<W>, s: State<W>, from: int, r: Reply)
    requires Wf(s) && InSync(e, s)
    ensures var t := HandleHash(s, from, r); Wf(t) && InSync(e, t) && (Safe(s) ==> Safe(t)) && t.status == s.status
  {
    SameShape(s, HandleHash(s, from, r));
  }

  lemma HashTruthful<W>(e: Engine<W>, s: State<W>, from: int, r: Reply, truth: map<int, int>)
    requires Wf(s) && Truthful(e, s, truth) && HonestReport(e, s, from, r)
    ensures Wf(HandleHash(s, from, r)) && Truthful(e, HandleHash(s, from, r), truth)
  {
    SameShape(s, HandleHash(s, from, r));
    var b :| b in s.inboxes && b.id == from && b.origin.Started? && b.origin.session == s.session && r in At(e, b).replies;
    assert Reports(e, b, s.session, s.currentTick, truth);
  }

  lemma PingKeeps<W>(e: Engine<W>, s: State<W>, id: int, pingId: string, room: bool)
    requires Wf(s)
    ensures var t := SendOne(s, id, Ping(pingId), room); Wf(t) && Calm(e, s, t)
  {
    CalmRefl(e, s);
    if id in s.clients && room { PutInert(e, s, id, Ping(pingId)); }
  }

  lemma GameMessageKeeps<W>(e: Engine<W>, s: State<W>, m: Msg, slow: seq<Evict>, truth: map<int, int>)
    requires Wf(s) && m.Game?
    ensures var t := SendAll(s, m, slow);
      && Wf(t) && t.status == s.status && (InSync(e, s) ==> InSync(e, t)) && (Safe(s) ==> Safe(t))
      && (Truthful(e, s, truth) ==> Truthful(e, t, truth))
  {
    SendAllTold(e, s, m, slow);
    ToldKeeps(e, s, m, SendAll(s, m, slow));
    if Truthful(e, s, truth) { ToldTruthful(e, s, m, SendAll(s, m, slow), s.currentTick, truth, truth); }
  }

  lemma StepSync<W>(e: Engine<W>, s: State<W>, ev: Event<W>)
    requires Wf(s) && InSync(e, s)
    ensures Wf(Step(e, s, ev)) && InSync(e, Step(e, s, ev))
    ensures s.status.Running? && Safe(s) && SessionClauses(s, ev) ==> Safe(Step(e, s, ev)) && Step(e, s, ev).status.Running?
  {
    hide Register, RemoveAll, Remove, HandleHash, HandleNewTick, SendOne, SendAll;
    if !s.status.Running? { return; }
    match ev
    case Login(login, admin, seed, self, slow) =>
      RegisterSync(e, s, login, admin, seed, self, slow);
      if Safe(s) && SessionClauses(s, ev) { RegisterSafe(e, s, login, admin, seed, self, slow); }
    case Drop(evict) =>
      RemoveCalm(e, s, evict, []);
      CalmKeeps(e, s, Remove(s, evict, []));
    case HashReport(from, reply) => HashSync(e, s, from, reply);
    case Restart(from, evicts) =>
      RemoveAllCalm(e, s, evicts, [Notice(ServerRestarting)]);
      CalmKeeps(e, s, RemoveAll(s, evicts, [Notice(ServerRestarting)]));
    case ForcedTick(from, choice) => var _ := TickKeeps(e, s, choice, map[]);
    case TimerTick(choice) => var _ := TickKeeps(e, s, choice, map[]);
    case PingFrom(from, pingId, room) =>
      PingKeeps(e, s, from, pingId, room);
      CalmKeeps(e, s, SendOne(s, from, Ping(pingId), room));
    case GameMessage(from, kind, body, slow) => GameMessageKeeps(e, s, Game(kind, from, body), slow, map[]);
  }

  lemma StepTruthful<W>(e: Engine<W>, s: State<W>, ev: Event<W>, truth: map<int, int>) returns (truth': map<int, int>)
    requires Wf(s) && InSync(e, s) && Safe(s) && Truthful(e, s, truth) && SessionClauses(s, ev)
    requires ev.HashReport? ==> HonestReport(e, s, ev.from, ev.reply)
    ensures Wf(Step(e, s, ev)) && Truthful(e, Step(e, s, ev), truth')
  {
    hide Register, RemoveAll, Remove, HandleHash, HandleNewTick, SendOne, SendAll, Truthful;
    truth' := truth;
    if !s.status.Running? { return; }
    match ev
    case Login(login, admin, seed, self, slow) =>
      truth' := RegisterTruthful(e, s, login, admin, seed, self, slow, truth);
    case Drop(evict) =>
      RemoveCalm(e, s, evict, []);
      CalmTruthful(e, s, Remove(s, evict, []), truth);
    case HashReport(from, reply) => HashTruthful(e, s, from, reply, truth);
    case Restart(from, evicts) =>
      RemoveAllCalm(e, s, evicts, [Notice(ServerRestarting)]);
      CalmTruthful(e, s, RemoveAll(s, evicts, [Notice(ServerRestarting)]), truth);
    case ForcedTick(from, choice) => if IsAdmin(s, from) { truth' := TickKeeps(e, s, choice, truth); }
    case TimerTick(choice) => truth' := TickKeeps(e, s, choice, truth);
    case PingFrom(from, pingId, room) =>
      PingKeeps(e, s, from, pingId, room);
      CalmTruthful(e, s, SendOne(s, from, Ping(pingId), room), truth);
    case GameMessage(from, kind, body, slow) => GameMessageKeeps(e, s, Game(kind, from, body), slow, truth);
  }

  // ----- whole runs

  /** Restarts and forced ticks are for admins: from anyone else they change nothing at all. */
  lemma OnlyAdmins<W>(e: Engine<W>, s: State<W>, from: int, evicts: seq<Evict>, choice: TickChoice)
    requires forall login :: login in s.players ==> s.players[login] != Player(from, true)
    ensures Step(e, s, Restart(from, evicts)) == s && Step(e, s, ForcedTick(from, choice)) == s
  {
    assert forall login :: login in s.players && s.players[login].id == from && s.players[login].admin ==> s.players[login] == Player(from, true);
    hide HandleNewTick, RemoveAll;
  }

  /** And an admin's forced tick is a tick like the timer's. */
  lemma AdminsForceTicks<W>(e: Engine<W>, s: State<W>, login: string, choice: TickChoice)
    requires login in s.players && s.players[login].admin
    ensures Step(e, s, ForcedTick(s.players[login].id, choice)) == Step(e, s, TimerTick(choice))
  {
    assert IsAdmin(s, s.players[login].id);
    hide HandleNewTick;
  }

  lemma {:induction false} RunKeeps<W>(e: Engine<W>, evs: seq<Event<W>>)
    ensures Wf(Run(e, evs)) && InSync(e, Run(e, evs))
  {
    if evs != [] {
      RunKeeps(e, evs[..|evs| - 1]);
      StepSync(e, Run(e, evs[..|evs| - 1]), evs[|evs| - 1]);
    }
  }

  /** Every client of every reachable state ends up, once it has read its inbox, with the same world and
      the same messages waiting, late joiners included and with no assumption on the environment. */
  lemma Lockstep<W>(e: Engine<W>, evs: seq<Event<W>>, c: int, d: int)
    requires c in Run(e, evs).clients && d in Run(e, evs).clients
    ensures var s := Run(e, evs);
      && s.clients[c] < |s.inboxes| && s.clients[d] < |s.inboxes|
      && var a, b := s.inboxes[s.clients[c]], s.inboxes[s.clients[d]];
      && a.origin.Started? && b.origin.Started?
      && Replay(e, a.origin.world, a.sent).world == Replay(e, b.origin.world, b.sent).world
      && Replay(e, a.origin.world, a.sent).pending == Replay(e, b.origin.world, b.sent).pending
  {
    RunKeeps(e, evs);
    var s := Run(e, evs);
    assert Live(s, s.clients[c]) && Live(s, s.clients[d]);
  }

  /** Ids stay distinct and below `nextID`, and no inbox is closed twice or sent to after it was closed. */
  lemma RegistrySafety<W>(e: Engine<W>, evs: seq<Event<W>>)
    ensures var s := Run(e, evs);
      && !s.status.Panicked?
      && (forall l :: l in s.players ==> 1 <= s.players[l].id < s.nextID)
      && (forall l, k :: l in s.players && k in s.players && l != k ==> s.players[l].id != s.players[k].id)
      && (forall c :: c in s.clients ==> s.clients[c] < |s.inboxes| && !s.inboxes[s.clients[c]].closed)
      && (s.masterID == -1 ==> s.clients == map[])
  {
    RunKeeps(e, evs);
    var s := Run(e, evs);
    forall c | c in s.clients ensures s.clients[c] < |s.inboxes| && !s.inboxes[s.clients[c]].closed {
      assert Live(s, s.clients[c]);
    }
  }

  /** The session assumption: clauses (a) and (b) at every login. */
  ghost predicate OrderlyRun<W>(e: Engine<W>, evs: seq<Event<W>>) {
    evs == [] || (OrderlyRun(e, evs[..|evs| - 1]) && SessionClauses(Run(e, evs[..|evs| - 1]), evs[|evs| - 1]))
  }

  /** Clause (c) at every report. */
  ghost predicate HonestRun<W>(e: Engine<W>, evs: seq<Event<W>>) {
    evs == [] ||
      var s, ev := Run(e, evs[..|evs| - 1]), evs[|evs| - 1];
      HonestRun(e, evs[..|evs| - 1]) && (ev.HashReport? ==> HonestReport(e, s, ev.from, ev.reply))
  }

  lemma {:induction false} OrderlySafe<W>(e: Engine<W>, evs: seq<Event<W>>)
    requires OrderlyRun(e, evs)
    ensures Safe(Run(e, evs)) && Run(e, evs).status.Running?
  {
    if evs != [] {
      OrderlySafe(e, evs[..|evs| - 1]);
      RunKeeps(e, evs[..|evs| - 1]);
      StepSync(e, Run(e, evs[..|evs| - 1]), evs[|evs| - 1]);
    }
  }

  /** In an orderly run the master is a client whenever there are clients, and no send to it ever loops. */
  lemma MasterIsClient<W>(e: Engine<W>, evs: seq<Event<W>>)
    requires OrderlyRun(e, evs)
    ensures var s := Run(e, evs);
      && (s.masterID == -1 <==> s.clients == map[])
      && (s.masterID != -1 ==> s.masterID in s.clients)
      && s.status.Running?
      && forall m, slow :: Inert(m) ==> !SendMaster(s, m, slow).Hangs?
  {
    OrderlySafe(e, evs);
    RunKeeps(e, evs);
    var s := Run(e, evs);
    forall m, slow | Inert(m) ensures !SendMaster(s, m, slow).Hangs? { SendMasterCalm(e, s, m, slow); }
  }

  /** Sending to the master loops for ever exactly when there are clients but the master is none of them. */
  lemma SendMasterHangsIff<W>(e: Engine<W>, evs: seq<Event<W>>, m: Msg, slow: seq<Evict>)
    requires Inert(m) && Run(e, evs).status.Running?
    ensures SendMaster(Run(e, evs), m, slow).Hangs? <==>
      Run(e, evs).clients != map[] && Run(e, evs).masterID !in Run(e, evs).clients
  {
    RunKeeps(e, evs);
    SendMasterCalm(e, Run(e, evs), m, slow);
  }

  lemma {:induction false} RunTruthful<W>(e: Engine<W>, evs: seq<Event<W>>) returns (truth: map<int, int>)
    requires OrderlyRun(e, evs) && HonestRun(e, evs)
    ensures Wf(Run(e, evs)) && Truthful(e, Run(e, evs), truth)
  {
    if evs == [] { return map[]; }
    var before := evs[..|evs| - 1];
    truth := RunTruthful(e, before);
    RunKeeps(e, before);
    OrderlySafe(e, before);
    truth := StepTruthful(e, Run(e, before), evs[|evs| - 1], truth);
  }

  /** In an orderly run of honest clients every stored hash of a tick is the same, so a check, whichever
      client is master when it fires, evicts nobody. */
  lemma NoFalseDesync<W>(e: Engine<W>, evs: seq<Event<W>>, tick: int, v: Visit)
    requires OrderlyRun(e, evs) && HonestRun(e, evs) && tick in Run(e, evs).hashes
    ensures Uniform(Run(e, evs).hashes[tick])
    ensures CheckHashesOne(Run(e, evs), Run(e, evs).hashes[tick], v) == Run(e, evs)
  {
    var truth := RunTruthful(e, evs);
    UniformEvictsNobody(Run(e, evs), Run(e, evs).hashes[tick], v);
  }

  /** The next tick's hash checks change nothing but the list of checks. */
  lemma TickEvictsNobody<W>(e: Engine<W>, evs: seq<Event<W>>, c: TickChoice)
    requires OrderlyRun(e, evs) && HonestRun(e, evs)
    ensures var s := CheckForHashStart(SendNewTick(Run(e, evs), c.slowOnTick), c.slowOnHash);
      CheckHashes(s, c.visits) == s.(hashes := CheckHashes(s, c.visits).hashes)
  {
    hide Run, SendNewTick, CheckForHashStart, Truthful, CheckHashes, OrderlyRun, HonestRun;
    var truth := RunTruthful(e, evs);
    RunKeeps(e, evs);
    CheckersBeforeChecks(e, Run(e, evs), c, truth);
    UniformCheckHashes(CheckForHashStart(SendNewTick(Run(e, evs), c.slowOnTick), c.slowOnHash), c.visits);
  }

  lemma CheckersBeforeChecks<W>(e: Engine<W>, s: State<W>, c: TickChoice, truth: map<int, int>)
    requires Wf(s) && InSync(e, s) && Truthful(e, s, truth)
    ensures var t := CheckForHashStart(SendNewTick(s, c.slowOnTick), c.slowOnHash);
      forall k :: k in t.hashes ==> Uniform(t.hashes[k])
  {
    hide SendAll, ConsumeAll, CheckForHashStart;
    NewTickTruthful(e, s, c.slowOnTick, truth);
    var s0 := s.(currentTick := s.currentTick + 1);
    SameShape(s, s0);
    assert InSync(e, s0);
    SendAllTold(e, s0, NewTick, c.slowOnTick);
    ToldKeeps(e, s0, NewTick, SendNewTick(s, c.slowOnTick));
    var later := RequestHashTruthful(e, SendNewTick(s, c.slowOnTick), c.slowOnHash, truth);
  }

  /** Every client of an honest orderly run has played exactly as many ticks as the server counts. */
  lemma ClientsCountTicks<W>(e: Engine<W>, evs: seq<Event<W>>, c: int)
    requires OrderlyRun(e, evs) && HonestRun(e, evs) && c in Run(e, evs).clients
    ensures var s := Run(e, evs);
      && s.clients[c] < |s.inboxes| && s.inboxes[s.clients[c]].origin.Started?
      && At(e, s.inboxes[s.clients[c]]).world.gameTick == s.currentTick
  {
    var truth := RunTruthful(e, evs);
    var s := Run(e, evs);
    assert Live(s, s.clients[c]);
    assert OnTick(e, s.inboxes[s.clients[c]], s.session, s.currentTick);
  }
}
