/** Where the session clauses are needed: the exact login that loses the master, and two short
    runs, each breaking one clause, that lose it. */
module LockstepLimits {
  import opened GameClient
  import opened RegistryModel
  import opened RegistryInvariants
  import opened LockstepTheorems

  /** Whatever inboxes are full, a login keeps the master among the clients, exactly when it comes from a known player,
      is refused, or the next id is not in use. */
  lemma LoginKeepsMasterIff<W>(e: Engine<W>, s: State<W>, login: string, admin: bool, seed: W, self: Evict)
    requires Wf(s) && Led(s)
    ensures (forall slow :: Led(Register(s, login, admin, seed, self, slow)))
      <==> login in s.players || (s.players == map[] && !admin) || s.nextID !in s.clients
  {
    hide Register, Wf, Led;
    if login in s.players {
      forall slow ensures Led(Register(s, login, admin, seed, self, slow)) { KnownKeepsMaster(e, s, login, admin, seed, self, slow); }
    } else if s.players == map[] && !admin {
      forall slow ensures Led(Register(s, login, admin, seed, self, slow)) { RefusedKeepsMaster(s, login, seed, self, slow); }
    } else if s.nextID in s.clients {
      LoginLosesMaster(e, s, login, admin, seed, self);
      assert !Led(Register(s, login, admin, seed, self, Displacing(s)));
    } else {
      forall slow ensures Led(Register(s, login, admin, seed, self, slow)) { FreshIdKeepsMaster(e, s, login, admin, seed, self, slow); }
    }
  }

  lemma RefusedKeepsMaster<W>(s: State<W>, login: string, seed: W, self: Evict, slow: seq<Evict>)
    requires Led(s) && s.players == map[]
    ensures Led(Register(s, login, false, seed, self, slow))
  {
    assert login !in s.players;
  }

  /** A new login under an id that no client has. */
  lemma FreshIdKeepsMaster<W>(e: Engine<W>, s: State<W>, login: string, admin: bool, seed: W, self: Evict, slow: seq<Evict>)
    requires Wf(s) && Led(s) && login !in s.players && (s.players != map[] || admin) && s.nextID !in s.clients
    ensures Led(Register(s, login, admin, seed, self, slow))
  {
    hide Announce, CheckForNewGame, Wf, Attach;
    var t := Announce(CheckForNewGame(s), login, admin, slow);
    AnnounceLed(e, s, login, admin, slow);
    assert t.masterID != s.nextID;
    AttachLedIff(t, login, s.nextID, seed);
  }

  /** Nobody joins by an announcement, and the master stays or is replaced. */
  lemma AnnounceLed<W>(e: Engine<W>, s: State<W>, login: string, admin: bool, slow: seq<Evict>)
    requires Wf(s) && Led(s) && login !in s.players
    ensures var t := Announce(CheckForNewGame(s), login, admin, slow);
      Wf(t) && Led(t) && t.clients.Keys <= s.clients.Keys
    ensures s.nextID >= 1 && CheckForNewGame(s).nextID == s.nextID
  {
    hide Announce, ConsumeAll;
    NewGameKeeps(e, s, map[]);
    AnnounceSync(e, CheckForNewGame(s), login, admin, slow);
  }

  /** A player who is known has the same id again, which is not the master's once the old connection is gone. */
  lemma KnownKeepsMaster<W>(e: Engine<W>, s: State<W>, login: string, admin: bool, seed: W, self: Evict, slow: seq<Evict>)
    requires Wf(s) && Led(s) && login in s.players
    ensures Led(Register(s, login, admin, seed, self, slow))
  {
    hide Announce, Attach, ConsumeAll, Remove;
    NewGameKeeps(e, s, map[]);
    var s1 := CheckForNewGame(s);
    var id := s1.players[login].id;
    var s2 := Remove(s1, self.(id := id), []);
    RemoveCalm(e, s1, self.(id := id), []);
    assert Led(s2) && s2.masterID != id;
    if login in s2.players {
      var s3 := s2.(players := s2.players[login := Player(id, admin)]);
      ReadmitKeeps(e, s2, login, admin, map[]);
      AttachLedIff(s3, login, id, seed);
    } else if s2.players == map[] && !admin {
    } else {
      assert s2.clients == map[];
      FreshIdKeepsMaster(e, s2, login, admin, seed, self, slow);
    }
  }

  /** Who must be full for a new login to lose the master: the master, unless it has the next id itself. */
  function Displacing<W>(s: State<W>): seq<Evict> {
    if s.masterID == s.nextID then [] else [Evict(s.masterID, false, s.nextID)]
  }

  lemma LoginLosesMaster<W>(e: Engine<W>, s: State<W>, login: string, admin: bool, seed: W, self: Evict)
    requires Wf(s) && Led(s) && login !in s.players && (s.players != map[] || admin) && s.nextID in s.clients
    ensures !Led(Register(s, login, admin, seed, self, Displacing(s)))
  {
    var slow := Displacing(s);
    var t := Announce(CheckForNewGame(s), login, admin, slow);
    AnnounceLed(e, s, login, admin, slow);
    DisplacedMaster(e, s, login, admin);
    hide Announce, Wf, Attach;
    AttachLedIff(t, login, s.nextID, seed);
  }

  lemma DisplacedMaster<W>(e: Engine<W>, s: State<W>, login: string, admin: bool)
    requires Wf(s) && Led(s) && login !in s.players && s.nextID in s.clients
    ensures Announce(CheckForNewGame(s), login, admin, Displacing(s)).masterID == s.nextID
  {
    hide Broadcast, Remove, Targets, Wf;
    assert CheckForNewGame(s) == s;
    EnrolKeeps(e, s, login, admin, map[]);
    var u, slow := Enrol(s, login, admin), Displacing(s);
    SendOnlyTo(e, u, NewClient(s.nextID), slow);
    var b := Broadcast(u, NewClient(s.nextID), Targets(u, slow));
    if s.masterID != s.nextID {
      ClientIsLive(s, s.nextID);
      NextHeir(b, slow[0]);
      OneRemoved(b, slow[0], [Notice(TooSlow)]);
    }
  }

  lemma OneRemoved<W>(s: State<W>, v: Evict, reason: seq<Msg>)
    ensures RemoveAll(s, [v], reason) == Remove(s, v, reason)
  {
    hide Remove;
    assert [v][1..] == [];
  }

  lemma SendOnlyTo<W>(e: Engine<W>, s: State<W>, m: Msg, slow: seq<Evict>)
    requires Wf(s)
    ensures var b := Broadcast(s, m, Targets(s, slow)); b.clients == s.clients && b.masterID == s.masterID && b.nextID == s.nextID
  {
    BroadcastTold(e, s, m, slow);
    hide Broadcast, Wf, GotIt, SameInbox, Served;
  }

  /** The client that the election meets first is the next master. */
  lemma NextHeir<W>(s: State<W>, v: Evict)
    requires v.id == s.masterID && v.id in s.clients && v.heir in s.clients && v.heir != v.id && v.heir != -1
    ensures Remove(s, v, [Notice(TooSlow)]).masterID == v.heir
  {
    hide Put;
  }

  lemma AttachLedIff<W>(s: State<W>, login: string, id: int, seed: W)
    requires Wf(s) && Led(s) && id >= 1
    ensures Led(Attach(s, login, id, seed)) <==> s.masterID != id
  {}

  const NOBODY := Evict(0, false, 0)
  const QUIET_TICK := TickChoice([], [], [], [], [])

  function Overload<W>(seed: W): seq<Event<W>> {
    [Login("a", true, seed, NOBODY, []),
     Login("b", false, seed, NOBODY, [Evict(1, false, 0)]),
     Login("c", true, seed, NOBODY, []),
     TimerTick(QUIET_TICK),
     Login("d", false, seed, NOBODY, []),
     TimerTick(QUIET_TICK)]
  }

  /** The shape of a running registry, leaving out what its inboxes hold. */
  ghost predicate Looks<W>(s: State<W>, nextID: int, clients: map<int, nat>, players: map<string, Player>, masterID: int,
                           callbacks: seq<Joiner>, inboxes: nat) {
    && s.nextID == nextID && s.clients == clients && s.players == players && s.masterID == masterID
    && s.callbacks == callbacks && |s.inboxes| == inboxes && s.status.Running?
  }

  lemma NoneSlow<W>(e: Engine<W>, s: State<W>, m: Msg)
    requires Wf(s)
    ensures Wf(SendAll(s, m, [])) && SendAll(s, m, []) == s.(inboxes := SendAll(s, m, []).inboxes)
    ensures |SendAll(s, m, []).inboxes| == |s.inboxes|
  {
    BroadcastTold(e, s, m, []);
  }

  lemma QuietHashStart<W>(e: Engine<W>, s: State<W>)
    requires Wf(s)
    ensures var t := CheckForHashStart(s, []);
      && Wf(t) && |t.inboxes| == |s.inboxes| && t == s.(inboxes := t.inboxes, hashes := t.hashes)
  {
    hide SendAll;
    var h := s.(hashes := s.hashes[s.currentTick := Checker(|s.clients|, map[])]);
    SameShape(s, h);
    NoneSlow(e, h, RequestHash(s.currentTick));
  }

  lemma QuietNewTick<W>(e: Engine<W>, s: State<W>)
    requires Wf(s)
    ensures var t := SendNewTick(s, []);
      && Wf(t) && |t.inboxes| == |s.inboxes| && t == s.(inboxes := t.inboxes, currentTick := t.currentTick)
  {
    hide SendAll;
    SameShape(s, s.(currentTick := s.currentTick + 1));
    NoneSlow(e, s.(currentTick := s.currentTick + 1), NewTick);
  }

  /** The tick up to its map requests when every inbox has room and no check is due. */
  lemma QuietTick<W>(e: Engine<W>, s: State<W>)
    requires Wf(s) && s.status.Running?
    ensures var t := MaybeSendConnCounter(CheckHashes(CheckForHashStart(SendNewTick(s, []), []), []), []);
      && Wf(t) && |t.inboxes| == |s.inboxes|
      && t == s.(inboxes := t.inboxes, currentTick := t.currentTick, hashes := t.hashes)
      && HandleNewTick(e, s, QUIET_TICK) == JoinAll(e, t, s.callbacks, [])
  {
    hide SendAll, SendNewTick, CheckForHashStart, Wf;
    QuietNewTick(e, s);
    var s1 := SendNewTick(s, []);
    QuietHashStart(e, s1);
    var s2 := CheckForHashStart(s1, []);
    NoneSlow(e, s2, CurrentConnections(|s2.clients|));
  }

  lemma FirstLogin<W>(e: Engine<W>, login: string, seed: W)
    ensures Looks(Step(e, Init(), Login(login, true, seed, NOBODY, [])),
                  2, map[1 := 0], map[login := Player(1, true)], 1, [], 1)
  {
    EmptySendAll(Enrol(Init<W>(), login, true), NewClient(1), []);
  }

  /** An announcement that finds room everywhere. */
  lemma QuietAnnounce<W>(e: Engine<W>, s: State<W>, login: string, admin: bool)
    requires Wf(s) && s.status.Running? && login !in s.players
    ensures var t := Announce(CheckForNewGame(s), login, admin, []);
      && Wf(t) && CheckForNewGame(s).nextID == s.nextID
      && Looks(t, s.nextID + 1, s.clients, s.players[login := Player(s.nextID, admin)], s.masterID, s.callbacks, |s.inboxes|)
  {
    hide SendAll;
    var s1 := CheckForNewGame(s);
    SameShape(s, s1);
    EnrolKeeps(e, s1, login, admin, map[]);
    NoneSlow(e, Enrol(s1, login, admin), NewClient(s.nextID));
  }

  /** A login that finds room everywhere queues a map request under a new id. */
  lemma LateLogin<W>(e: Engine<W>, s: State<W>, login: string, admin: bool, seed: W)
    requires Wf(s) && s.status.Running? && login !in s.players && (s.players != map[] || admin) && s.masterID != -1
    ensures Looks(Step(e, s, Login(login, admin, seed, NOBODY, [])),
                  s.nextID + 1, s.clients - {s.nextID}, s.players[login := Player(s.nextID, admin)], s.masterID,
                  s.callbacks + [Joiner(login, s.nextID, |s.inboxes|)], |s.inboxes| + 1)
  {
    hide Announce, CheckForNewGame, Wf;
    QuietAnnounce(e, s, login, admin);
    var t := Announce(CheckForNewGame(s), login, admin, []);
    if s.nextID in t.clients { ClientIsLive(t, s.nextID); }
    assert s.nextID !in s.clients ==> s.clients - {s.nextID} == s.clients;
  }

  lemma ClientIsLive<W>(s: State<W>, c: int)
    requires Wf(s) && c in s.clients
    ensures Live(s, s.clients[c]) && c >= 1 && s.masterID != -1
  {}

  /** An announcement that finds the last client full ends the session. */
  lemma OverloadingAnnouncement<W>(e: Engine<W>, s: State<W>, login: string)
    requires Wf(s) && login !in s.players && s.clients.Keys == {s.masterID} && s.masterID != -1
    ensures Looks(Announce(s, login, false, [Evict(s.masterID, false, 0)]).(status := Running),
                  1, map[], map[], -1, s.callbacks, |s.inboxes|)
    ensures Announce(s, login, false, [Evict(s.masterID, false, 0)]).status == s.status
  {
    hide SendAll, ConsumeAll;
    var slow := [Evict(s.masterID, false, 0)];
    var s2 := Enrol(s, login, false);
    EnrolKeeps(e, s, login, false, map[]);
    SendAllTold(e, s2, NewClient(s.nextID), slow);
    AnnounceEvicts(e, s2, NewClient(s.nextID), slow);
    var t := Announce(s, login, false, slow);
    assert slow[0] in slow;
    assert t.clients.Keys == {};
    assert login in s2.players;
  }

  lemma AnnounceEvicts<W>(e: Engine<W>, s: State<W>, m: Msg, slow: seq<Evict>)
    requires Wf(s)
    ensures forall v :: v in slow ==> v.id !in SendAll(s, m, slow).clients
  {
    BroadcastTold(e, s, m, slow);
    RemoveAllCalm(e, Broadcast(s, m, Targets(s, slow)), slow, [Notice(TooSlow)]);
  }

  /** A login whose announcement finds the last client full takes over a new session under the old numbering. */
  lemma OverloadingLogin<W>(e: Engine<W>, s: State<W>, login: string, seed: W)
    requires Wf(s) && s.status.Running? && login !in s.players && s.players != map[]
    requires s.clients.Keys == {s.masterID} && s.nextID != s.masterID && s.masterID != -1
    ensures Looks(Step(e, s, Login(login, false, seed, NOBODY, [Evict(s.masterID, false, 0)])),
                  1, map[s.nextID := |s.inboxes|], map[], s.nextID, s.callbacks, |s.inboxes| + 1)
  {
    hide Announce, Wf;
    OverloadingAnnouncement(e, s, login);
  }

  /** A tick with one map request from a known player admits it. */
  lemma AdmittingTick<W>(e: Engine<W>, s: State<W>, j: Joiner)
    requires Wf(s) && s.status.Running? && s.callbacks == [j] && j.login in s.players && s.masterID in s.clients
    ensures Looks(Step(e, s, TimerTick(QUIET_TICK)),
                  s.nextID, s.clients[j.id := j.inbox], s.players, s.masterID, [], |s.inboxes|)
  {
    hide HandleNewTick, SendNewTick, CheckForHashStart, MaybeSendConnCounter, CheckHashes;
    QuietTick(e, s);
    var t := MaybeSendConnCounter(CheckHashes(CheckForHashStart(SendNewTick(s, []), []), []), []);
    assert Waiting(t, j);
    PutInert(e, t, t.masterID, MapUpload(t.currentTick));
    assert t.clients != map[];
    var t1 := JoinOne(e, t, j, []).(callbacks := []);
    assert HandleNewTick(e, s, QUIET_TICK) == JoinAll(e, t1, [], []);
  }

  lemma HangingTick<W>(e: Engine<W>, s: State<W>, j: Joiner)
    requires Wf(s) && s.status.Running? && s.callbacks == [j] && j.login in s.players
    requires s.masterID !in s.clients && s.clients != map[] && s.masterID != -1
    ensures Step(e, s, TimerTick(QUIET_TICK)).status.Stuck?
  {
    QuietTick(e, s);
    var t := MaybeSendConnCounter(CheckHashes(CheckForHashStart(SendNewTick(s, []), []), []), []);
    SendMasterCalm(e, t, MapUpload(t.currentTick), []);
  }

  lemma OneMore<W>(e: Engine<W>, evs: seq<Event<W>>, k: nat)
    requires k < |evs|
    ensures Run(e, evs[..k + 1]) == Step(e, Run(e, evs[..k]), evs[k])
    ensures Wf(Run(e, evs[..k]))
  {
    assert evs[..k + 1][..k] == evs[..k];
    RunKeeps(e, evs[..k]);
  }

  lemma OverloadB<W>(e: Engine<W>, s: State<W>, seed: W)
    requires Wf(s) && Looks(s, 2, map[1 := 0], map["a" := Player(1, true)], 1, [], 1)
    ensures Looks(Step(e, s, Overload(seed)[1]), 1, map[2 := 1], map[], 2, [], 2)
  {
    assert "a" in s.players;
    OverloadingLogin(e, s, "b", seed);
  }

  lemma OverloadD<W>(e: Engine<W>, s: State<W>, seed: W)
    requires Wf(s) && Looks(s, 2, map[2 := 1, 1 := 2], map["c" := Player(1, true)], 2, [], 3)
    ensures var t := Step(e, s, Overload(seed)[4]);
      t.status.Running? && t.clients.Keys == {1} && t.masterID == 2 && t.callbacks == [Joiner("d", 2, 3)] && "d" in t.players
  {
    assert "c" in s.players;
    LateLogin(e, s, "d", false, seed);
  }

  lemma OverloadTakesOver<W>(e: Engine<W>, seed: W)
    ensures Looks(Run(e, Overload(seed)[..2]), 1, map[2 := 1], map[], 2, [], 2)
  {
    var evs := Overload(seed);
    OverloadFirst(e, seed);
    OneMore(e, evs, 1);
    OverloadB(e, Run(e, evs[..1]), seed);
  }

  lemma OverloadFirst<W>(e: Engine<W>, seed: W)
    ensures Looks(Run(e, Overload(seed)[..1]), 2, map[1 := 0], map["a" := Player(1, true)], 1, [], 1)
  {
    OneMore(e, Overload(seed), 0);
    FirstLogin(e, "a", seed);
  }

  lemma OverloadAdmits<W>(e: Engine<W>, seed: W)
    ensures Looks(Run(e, Overload(seed)[..4]), 2, map[2 := 1, 1 := 2], map["c" := Player(1, true)], 2, [], 3)
  {
    hide Step;
    var evs := Overload(seed);
    OverloadTakesOver(e, seed);
    OneMore(e, evs, 2);
    LateLogin(e, Run(e, evs[..2]), "c", true, seed);
    OneMore(e, evs, 3);
    AdmittingTick(e, Run(e, evs[..3]), Joiner("c", 1, 2));
  }

  lemma OverloadReusesId<W>(e: Engine<W>, seed: W)
    ensures var s := Run(e, Overload(seed)[..5]);
      s.status.Running? && s.clients.Keys == {1} && s.masterID == 2 && s.callbacks == [Joiner("d", 2, 3)] && "d" in s.players
  {
    OverloadAdmits(e, seed);
    OneMore(e, Overload(seed), 4);
    OverloadD(e, Run(e, Overload(seed)[..4]), seed);
  }

  /** Without clause (a): the announcement of "b" evicts the only client, and the server loops for ever
      after two more logins. */
  lemma OverloadHangs<W>(e: Engine<W>, seed: W)
    ensures Run(e, Overload(seed)).status.Stuck?
  {
    var evs := Overload(seed);
    OverloadReusesId(e, seed);
    OneMore(e, evs, 5);
    assert 1 in Run(e, evs[..5]).clients;
    HangingTick(e, Run(e, evs[..5]), Joiner("d", 2, 3));
    assert evs[..6] == evs;
  }

  function Stale<W>(seed: W): seq<Event<W>> {
    [Login("a", true, seed, NOBODY, []),
     Login("b", true, seed, NOBODY, []),
     Drop(Evict(1, false, 0)),
     Login("b", true, seed, NOBODY, []),
     TimerTick(QUIET_TICK),
     Drop(Evict(1, false, 2)),
     Login("c", false, seed, NOBODY, [])]
  }

  lemma DropLast<W>(e: Engine<W>, s: State<W>, v: Evict)
    requires Wf(s) && s.status.Running? && s.clients.Keys == {v.id} && s.masterID == v.id
    ensures Looks(Step(e, s, Drop(v)), 1, map[], map[], -1, s.callbacks, |s.inboxes|)
  {
    RemoveCalm(e, s, v, []);
    var t := Remove(s, v, []);
    assert t.clients.Keys == {} && t.masterID == -1;
  }

  lemma LoginToEmpty<W>(e: Engine<W>, s: State<W>, login: string, seed: W)
    requires Wf(s) && s.status.Running? && s.clients == map[] && s.players == map[] && s.masterID == -1 && s.nextID == 1
    ensures Looks(Step(e, s, Login(login, true, seed, NOBODY, [])),
                  2, map[1 := |s.inboxes|], map[login := Player(1, true)], 1, s.callbacks, |s.inboxes| + 1)
  {
    EmptySendAll(Enrol(CheckForNewGame(s), login, true), NewClient(1), []);
  }

  lemma DropMaster<W>(e: Engine<W>, s: State<W>, heir: int)
    requires Wf(s) && s.status.Running? && s.clients.Keys == {s.masterID, heir} && heir != s.masterID && s.masterID != -1
    ensures Looks(Step(e, s, Drop(Evict(s.masterID, false, heir))),
                  s.nextID, s.clients - {s.masterID}, s.players, heir, s.callbacks, |s.inboxes|)
  {
    var v := Evict(s.masterID, false, heir);
    RemoveCalm(e, s, v, []);
    assert heir in Remove(s, v, []).clients;
  }

  lemma StaleB<W>(e: Engine<W>, s: State<W>, seed: W)
    requires Wf(s) && Looks(s, 2, map[1 := 0], map["a" := Player(1, true)], 1, [], 1)
    ensures var t := Step(e, s, Stale(seed)[1]);
      t.status.Running? && t.clients.Keys == {1} && t.masterID == 1 && t.callbacks == [Joiner("b", 2, 1)] && |t.inboxes| == 2
  {
    assert "a" in s.players;
    LateLogin(e, s, "b", true, seed);
  }

  lemma StaleWaits<W>(e: Engine<W>, seed: W)
    ensures var t := Run(e, Stale(seed)[..2]);
      t.status.Running? && t.clients.Keys == {1} && t.masterID == 1 && t.callbacks == [Joiner("b", 2, 1)] && |t.inboxes| == 2
  {
    OverloadFirst(e, seed);
    assert Stale(seed)[..1] == Overload(seed)[..1];
    OneMore(e, Stale(seed), 1);
    StaleB(e, Run(e, Stale(seed)[..1]), seed);
  }

  lemma StaleDrop<W>(e: Engine<W>, s: State<W>, seed: W)
    requires Wf(s) && s.status.Running? && s.clients.Keys == {1} && s.masterID == 1
    requires s.callbacks == [Joiner("b", 2, 1)] && |s.inboxes| == 2
    ensures Looks(Step(e, s, Stale(seed)[2]), 1, map[], map[], -1, [Joiner("b", 2, 1)], 2)
  {
    DropLast(e, s, Evict(1, false, 0));
  }

  lemma StaleSessionEnds<W>(e: Engine<W>, seed: W)
    ensures Looks(Run(e, Stale(seed)[..3]), 1, map[], map[], -1, [Joiner("b", 2, 1)], 2)
  {
    StaleWaits(e, seed);
    OneMore(e, Stale(seed), 2);
    StaleDrop(e, Run(e, Stale(seed)[..2]), seed);
  }

  lemma StaleRequestAdmitted<W>(e: Engine<W>, seed: W)
    ensures Looks(Run(e, Stale(seed)[..5]), 2, map[1 := 2, 2 := 1], map["b" := Player(1, true)], 1, [], 3)
  {
    hide Step;
    var evs := Stale(seed);
    StaleSessionEnds(e, seed);
    OneMore(e, evs, 3);
    StaleRelogin(e, Run(e, evs[..3]), seed);
    OneMore(e, evs, 4);
    AdmittingTick(e, Run(e, evs[..4]), Joiner("b", 2, 1));
  }

  lemma StaleRelogin<W>(e: Engine<W>, s: State<W>, seed: W)
    requires Wf(s) && Looks(s, 1, map[], map[], -1, [Joiner("b", 2, 1)], 2)
    ensures Looks(Step(e, s, Login("b", true, seed, NOBODY, [])), 2, map[1 := 2], map["b" := Player(1, true)], 1, [Joiner("b", 2, 1)], 3)
  {
    LoginToEmpty(e, s, "b", seed);
  }

  /** Without clause (b): "b" becomes a player of a second session while its map request of the first one is
      pending, is admitted under an id the second session then hands out again, and the server is left with a
      master and no clients. */
  lemma StaleRequestLosesMaster<W>(e: Engine<W>, seed: W)
    ensures var s := Run(e, Stale(seed)); s.status.Running? && s.masterID == 2 && s.clients == map[]
  {
    hide Step;
    var evs := Stale(seed);
    StaleRequestAdmitted(e, seed);
    OneMore(e, evs, 5);
    assert Run(e, evs[..5]).clients.Keys == {1, 2};
    DropMaster(e, Run(e, evs[..5]), 2);
    OneMore(e, evs, 6);
    assert "b" in Run(e, evs[..6]).players;
    LateLogin(e, Run(e, evs[..6]), "c", false, seed);
    assert evs[..7] == evs;
    assert Run(e, evs).clients.Keys == {};
  }
}
