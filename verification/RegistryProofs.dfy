/** What every step of the registry keeps. */
module RegistryInvariants {
  import opened GameClient
  import opened RegistryModel

  /** The client behind inbox `b` once it has read everything sent to it. */
  ghost function At<W>(e: Engine<W>, b: Inbox<W>): Client<W>
    requires b.origin.Started?
  {
    Replay(e, b.origin.world, b.sent)
  }

  ghost predicate Same<W>(a: Client<W>, b: Client<W>) {
    a.world == b.world && a.pending == b.pending && a.replies == b.replies
  }

  ghost predicate Live<W>(s: State<W>, i: nat) {
    i < |s.inboxes| && s.inboxes[i].origin.Started? && !s.inboxes[i].closed
  }

  ghost predicate PlayersOk<W>(s: State<W>) {
    && s.nextID >= 1
    && (forall l :: l in s.players ==> 1 <= s.players[l].id < s.nextID)
    && (forall l, k :: l in s.players && k in s.players && l != k ==> s.players[l].id != s.players[k].id)
  }

  ghost predicate ClientsOk<W>(s: State<W>) {
    && (forall c :: c in s.clients ==> c >= 1 && Live(s, s.clients[c]))
    && (forall c, d :: c in s.clients && d in s.clients && c != d ==> s.clients[c] != s.clients[d])
    && (s.masterID == -1 ==> s.clients == map[])
  }

  ghost predicate Waiting<W>(s: State<W>, j: Joiner) {
    j.id >= 1 && j.inbox < |s.inboxes| && s.inboxes[j.inbox] == Inbox(j.id, NotStarted, [], false)
  }

  ghost predicate JoinersOk<W>(s: State<W>) {
    && (forall j :: j in s.callbacks ==> Waiting(s, j))
    && (forall k, l :: 0 <= k < l < |s.callbacks| ==> s.callbacks[k].inbox != s.callbacks[l].inbox)
  }

  /** Holds in every run, whatever the environment does. */
  ghost predicate Wf<W>(s: State<W>) {
    !s.status.Panicked? && PlayersOk(s) && ClientsOk(s) && JoinersOk(s)
  }

  ghost predicate InSync<W>(e: Engine<W>, s: State<W>)
    requires Wf(s)
  {
    forall c, d :: c in s.clients && d in s.clients ==>
      var a, b := At(e, s.inboxes[s.clients[c]]), At(e, s.inboxes[s.clients[d]]);
      a.world == b.world && a.pending == b.pending
  }

  /** No client has a message waiting: the registry is between a NEW_TICK and the next game message. */
  ghost predicate Quiet<W>(e: Engine<W>, s: State<W>)
    requires Wf(s)
  {
    forall c :: c in s.clients ==> At(e, s.inboxes[s.clients[c]]).pending == []
  }

  ghost predicate Led<W>(s: State<W>) {
    s.masterID == -1 || s.masterID in s.clients
  }

  /** What also holds when the session clauses do: the master is a client, and no id is ahead of `nextID`. */
  ghost predicate Safe<W>(s: State<W>) {
    && Led(s)
    && (forall c :: c in s.clients ==> c < s.nextID)
    && (forall j :: j in s.callbacks && j.login in s.players ==> j.id == s.players[j.login].id)
  }

  ghost predicate Uniform(c: Checker) {
    forall a, b :: a in c.hashes && b in c.hashes ==> c.hashes[a] == c.hashes[b]
  }

  ghost predicate OnTick<W>(e: Engine<W>, b: Inbox<W>, session: nat, tick: int) {
    b.origin.Started? ==> b.origin.session == session && At(e, b).world.gameTick == tick
  }

  /** Every hash the client behind `b` reported in this session is the true one. */
  ghost predicate Reports<W>(e: Engine<W>, b: Inbox<W>, session: nat, tick: int, truth: map<int, int>) {
    b.origin.Started? ==>
      && b.origin.session <= session
      && (b.origin.session == session ==>
            forall r :: r in At(e, b).replies ==> r.tick <= tick && r.tick in truth && truth[r.tick] == r.hash)
  }

  ghost predicate CheckersOk<W>(s: State<W>, truth: map<int, int>) {
    && (forall t :: t in s.hashes ==> Uniform(s.hashes[t]))
    && (forall t, id :: t in s.hashes && t in truth && id in s.hashes[t].hashes ==> s.hashes[t].hashes[id] == truth[t])
    && (forall t :: t in truth ==> t <= s.currentTick)
  }

  /** `truth` gives for each tick of the session the one hash every client reports for it. */
  ghost predicate Truthful<W>(e: Engine<W>, s: State<W>, truth: map<int, int>)
    requires Wf(s)
  {
    && CheckersOk(s, truth)
    && (forall c :: c in s.clients ==> OnTick(e, s.inboxes[s.clients[c]], s.session, s.currentTick))
    && (forall b :: b in s.inboxes ==> Reports(e, b, s.session, s.currentTick, truth))
  }

  // ----- steps that no world can notice

  ghost predicate Inert(m: Msg) {
    !m.NewTick? && !m.RequestHash? && !Queued(m)
  }

  ghost predicate SameInbox<W>(e: Engine<W>, a: Inbox<W>, b: Inbox<W>) {
    && b.id == a.id && b.origin == a.origin
    && (a.origin.NotStarted? ==> b == a)
    && (a.origin.Started? ==> Same(At(e, a), At(e, b)))
  }

  ghost predicate SameBook<W>(s: State<W>, t: State<W>) {
    && ((t.players == s.players && t.nextID == s.nextID)
        || (t.players == map[] && t.nextID == 1 && t.clients == map[] && t.masterID == -1))
    && (t.masterID == -1 ==> s.masterID == -1 || t.players == map[])
    && (s.masterID == -1 ==> t.masterID == -1)
    && t.clients.Keys <= s.clients.Keys && (forall c :: c in t.clients ==> t.clients[c] == s.clients[c])
    && (forall k :: k in t.hashes ==> k in s.hashes && t.hashes[k] == s.hashes[k])
    && t.callbacks == s.callbacks && t.currentTick == s.currentTick && t.session == s.session && t.status == s.status
    && (Led(s) ==> Led(t))
    && |t.inboxes| == |s.inboxes|
  }

  /** From `s` to `t` clients may have left and inert messages may have been sent, nothing else. */
  ghost predicate Calm<W>(e: Engine<W>, s: State<W>, t: State<W>) {
    SameBook(s, t) && forall i :: 0 <= i < |s.inboxes| ==> SameInbox(e, s.inboxes[i], t.inboxes[i])
  }

  lemma CalmTrans<W>(e: Engine<W>, s: State<W>, t: State<W>, u: State<W>)
    requires Calm(e, s, t) && Calm(e, t, u)
    ensures Calm(e, s, u)
  {
    assert u.clients.Keys <= t.clients.Keys;
    forall i | 0 <= i < |s.inboxes| ensures SameInbox(e, s.inboxes[i], u.inboxes[i]) {
      assert SameInbox(e, s.inboxes[i], t.inboxes[i]) && SameInbox(e, t.inboxes[i], u.inboxes[i]);
    }
  }

  lemma CalmKeeps<W>(e: Engine<W>, s: State<W>, t: State<W>)
    requires Wf(s) && Wf(t) && Calm(e, s, t)
    ensures InSync(e, s) ==> InSync(e, t)
    ensures Quiet(e, s) ==> Quiet(e, t)
    ensures Safe(s) ==> Safe(t)
  {
    forall c | c in t.clients ensures SameInbox(e, s.inboxes[s.clients[c]], t.inboxes[t.clients[c]]) {}
  }

  lemma CalmTruthful<W>(e: Engine<W>, s: State<W>, t: State<W>, truth: map<int, int>)
    requires Wf(s) && Wf(t) && Calm(e, s, t) && Truthful(e, s, truth)
    ensures Truthful(e, t, truth)
  {
    forall c | c in t.clients ensures SameInbox(e, s.inboxes[s.clients[c]], t.inboxes[t.clients[c]]) {}
    forall b | b in t.inboxes ensures Reports(e, b, t.session, t.currentTick, truth) {
      var i :| 0 <= i < |t.inboxes| && t.inboxes[i] == b;
      assert SameInbox(e, s.inboxes[i], b) && s.inboxes[i] in s.inboxes;
    }
  }

  lemma PutInert<W>(e: Engine<W>, s: State<W>, c: int, m: Msg)
    requires Wf(s) && c in s.clients && Inert(m)
    ensures Wf(Put(s, s.clients[c], m)) && Calm(e, s, Put(s, s.clients[c], m))
    ensures Put(s, s.clients[c], m).clients == s.clients
  {
    hide Tick, Apply;
    var i := s.clients[c];
    var t := Put(s, i, m);
    assert Live(s, i);
    ConsumeOne(e, Fresh(s.inboxes[i].origin.world), s.inboxes[i].sent, m);
    forall k | 0 <= k < |s.inboxes| ensures SameInbox(e, s.inboxes[k], t.inboxes[k]) {}
    forall d | d in t.clients ensures Live(t, t.clients[d]) { assert Live(s, s.clients[d]); }
    forall j | j in t.callbacks ensures Waiting(t, j) { assert Waiting(s, j); }
  }

  lemma RemoveSilent<W>(e: Engine<W>, s: State<W>, v: Evict)
    requires Wf(s) && v.id in s.clients
    ensures Wf(Remove(s, v, [])) && Calm(e, s, Remove(s, v, []))
    ensures Remove(s, v, []).clients == s.clients - {v.id}
  {
    var i := s.clients[v.id];
    assert Live(s, i);
    var t := Remove(s, v, []);
    assert t.inboxes == s.inboxes[i := s.inboxes[i].(closed := true)];
    assert t.clients == s.clients - {v.id};
    forall k | 0 <= k < |s.inboxes| ensures SameInbox(e, s.inboxes[k], t.inboxes[k]) {}
    forall d | d in t.clients ensures Live(t, t.clients[d]) { assert Live(s, s.clients[d]); }
    forall j | j in t.callbacks ensures Waiting(t, j) { assert Waiting(s, j); }
    if t.masterID == -1 {
      if s.masterID == v.id { assert forall d :: d in t.clients ==> d != -1; }
      assert t.clients.Keys == {};
    }
  }

  lemma RemoveCalm<W>(e: Engine<W>, s: State<W>, v: Evict, reason: seq<Msg>)
    requires Wf(s) && (forall m :: m in reason ==> Inert(m))
    ensures Wf(Remove(s, v, reason)) && Calm(e, s, Remove(s, v, reason))
    ensures v.id !in Remove(s, v, reason).clients
    ensures v.id in s.clients ==> Remove(s, v, reason).clients == s.clients - {v.id}
    ensures v.id !in s.clients ==> Remove(s, v, reason) == s
  {
    if v.id in s.clients {
      var s1 := if reason == [] then s else SendOne(s, v.id, reason[0], v.told);
      if s1 != s { PutInert(e, s, v.id, reason[0]); }
      assert Remove(s, v, reason) == Remove(s1, v, []);
      RemoveSilent(e, s1, v);
      CalmTrans(e, s, s1, Remove(s, v, reason));
    }
  }

  lemma {:induction false} RemoveAllCalm<W>(e: Engine<W>, s: State<W>, vs: seq<Evict>, reason: seq<Msg>)
    requires Wf(s) && (forall m :: m in reason ==> Inert(m))
    ensures Wf(RemoveAll(s, vs, reason)) && Calm(e, s, RemoveAll(s, vs, reason))
    ensures forall v :: v in vs ==> v.id !in RemoveAll(s, vs, reason).clients
    ensures (forall c :: c in s.clients ==> exists v :: v in vs && v.id == c) ==> RemoveAll(s, vs, reason).clients == map[]
    ensures forall c :: c in s.clients && (forall v :: v in vs ==> v.id != c) ==> c in RemoveAll(s, vs, reason).clients
    decreases |vs|
  {
    if vs != [] {
      RemoveCalm(e, s, vs[0], reason);
      var s1 := Remove(s, vs[0], reason);
      RemoveAllCalm(e, s1, vs[1..], reason);
      CalmTrans(e, s, s1, RemoveAll(s, vs, reason));
    }
    var t := RemoveAll(s, vs, reason);
    if forall c :: c in s.clients ==> exists v :: v in vs && v.id == c {
      assert forall c :: c in t.clients ==> c in s.clients;
      assert t.clients.Keys == {};
    }
  }

  // ----- broadcasts

  ghost predicate GotIt<W>(e: Engine<W>, a: Inbox<W>, m: Msg, b: Inbox<W>) {
    a.origin.Started? && b.id == a.id && b.origin == a.origin && Same(Consume(e, At(e, a), m), At(e, b))
  }

  ghost predicate Served<W>(s: State<W>, i: int) {
    exists c :: c in s.clients && s.clients[c] == i
  }

  /** From `s` to `t` every remaining client got `m`; an inbox that is no client's got nothing that counts. */
  ghost predicate Told<W>(e: Engine<W>, s: State<W>, m: Msg, t: State<W>) {
    && SameBook(s, t)
    && (forall i :: 0 <= i < |s.inboxes| ==>
          || SameInbox(e, s.inboxes[i], t.inboxes[i])
          || (Served(s, i) && GotIt(e, s.inboxes[i], m, t.inboxes[i])))
    && (forall c :: c in t.clients && s.clients[c] < |s.inboxes| ==>
          GotIt(e, s.inboxes[s.clients[c]], m, t.inboxes[s.clients[c]]))
  }

  lemma BroadcastTold<W>(e: Engine<W>, s: State<W>, m: Msg, slow: seq<Evict>)
    requires Wf(s)
    ensures var t := Broadcast(s, m, Targets(s, slow));
      && Wf(t) && t == s.(inboxes := t.inboxes) && |t.inboxes| == |s.inboxes|
      && (forall i :: 0 <= i < |s.inboxes| ==>
            || SameInbox(e, s.inboxes[i], t.inboxes[i])
            || (Served(s, i) && GotIt(e, s.inboxes[i], m, t.inboxes[i])))
      && (forall c :: c in s.clients && (forall v :: v in slow ==> v.id != c) ==>
            GotIt(e, s.inboxes[s.clients[c]], m, t.inboxes[s.clients[c]]))
  {
    var to := Targets(s, slow);
    var t := Broadcast(s, m, to);
    forall i: nat | i in to ensures Live(s, i) {}
    assert t == s.(inboxes := t.inboxes);
    forall i | 0 <= i < |s.inboxes|
      ensures if i in to then GotIt(e, s.inboxes[i], m, t.inboxes[i]) else SameInbox(e, s.inboxes[i], t.inboxes[i])
    {
      if i in to {
        assert Live(s, i);
        ConsumeOne(e, Fresh(s.inboxes[i].origin.world), s.inboxes[i].sent, m);
      }
    }
    forall i: nat | i in to ensures Served(s, i) {}
    forall c | c in t.clients ensures Live(t, t.clients[c]) { assert Live(s, s.clients[c]); }
    forall j | j in t.callbacks ensures Waiting(t, j) { assert Waiting(s, j); }
  }

  lemma SendAllTold<W>(e: Engine<W>, s: State<W>, m: Msg, slow: seq<Evict>)
    requires Wf(s)
    ensures Wf(SendAll(s, m, slow)) && Told(e, s, m, SendAll(s, m, slow))
    ensures forall c :: c in s.clients && (forall v :: v in slow ==> v.id != c) ==> c in SendAll(s, m, slow).clients
  {
    BroadcastTold(e, s, m, slow);
    var t := Broadcast(s, m, Targets(s, slow));
    RemoveAllCalm(e, t, slow, [Notice(TooSlow)]);
    var u := SendAll(s, m, slow);
    assert u == RemoveAll(t, slow, [Notice(TooSlow)]);
    forall i | 0 <= i < |s.inboxes|
      ensures SameInbox(e, s.inboxes[i], u.inboxes[i]) || (Served(s, i) && GotIt(e, s.inboxes[i], m, u.inboxes[i]))
    {
      assert SameInbox(e, t.inboxes[i], u.inboxes[i]);
    }
    forall c | c in u.clients ensures GotIt(e, s.inboxes[s.clients[c]], m, u.inboxes[s.clients[c]]) {
      var i := s.clients[c];
      assert GotIt(e, s.inboxes[i], m, t.inboxes[i]) && SameInbox(e, t.inboxes[i], u.inboxes[i]);
    }
  }

  lemma ToldKeeps<W>(e: Engine<W>, s: State<W>, m: Msg, t: State<W>)
    requires Wf(s) && Wf(t) && Told(e, s, m, t)
    ensures InSync(e, s) ==> InSync(e, t)
    ensures m.NewTick? ==> Quiet(e, t)
    ensures Quiet(e, s) && !Queued(m) ==> Quiet(e, t)
    ensures Safe(s) ==> Safe(t)
  {
    hide ConsumeAll, Tick, GotIt, Live, Wf, InSync, Quiet;
    ToldViews(e, s, m, t);
    assert InSync(e, s) ==> InSync(e, t) by { hide *; ToldInSync(e, s, m, t); }
    assert Quiet(e, s) && !Queued(m) ==> Quiet(e, t) by { hide *; ToldQuiet(e, s, m, t); }
    assert m.NewTick? ==> Quiet(e, t) by { hide *; ToldQuiet(e, s, m, t); }
  }

  lemma ToldViews<W>(e: Engine<W>, s: State<W>, m: Msg, t: State<W>)
    requires Wf(s) && Wf(t) && Told(e, s, m, t)
    ensures forall c :: c in t.clients ==>
      Live(s, s.clients[c]) && GotIt(e, s.inboxes[s.clients[c]], m, t.inboxes[t.clients[c]])
  {
    hide ConsumeAll, Tick, GotIt;
    forall c | c in t.clients
      ensures Live(s, s.clients[c]) && GotIt(e, s.inboxes[s.clients[c]], m, t.inboxes[t.clients[c]])
    {}
  }

  lemma ToldInSync<W>(e: Engine<W>, s: State<W>, m: Msg, t: State<W>)
    requires Wf(s) && Wf(t) && Told(e, s, m, t)
    ensures InSync(e, s) ==> InSync(e, t)
  {
    hide ConsumeAll, Tick;
    ToldViews(e, s, m, t);
  }

  lemma ToldQuiet<W>(e: Engine<W>, s: State<W>, m: Msg, t: State<W>)
    requires Wf(s) && Wf(t) && Told(e, s, m, t)
    ensures m.NewTick? ==> Quiet(e, t)
    ensures Quiet(e, s) && !Queued(m) ==> Quiet(e, t)
  {
    hide ConsumeAll, Tick;
    ToldViews(e, s, m, t);
  }

  ghost function HashOf<W>(e: Engine<W>, b: Inbox<W>): int
    requires b.origin.Started?
  {
    e.hash(At(e, b).world.gameTick, At(e, b).world.state)
  }

  lemma ReportKept<W>(e: Engine<W>, a: Inbox<W>, m: Msg, b: Inbox<W>, session: nat, tick: int, tick': int,
                      truth: map<int, int>, truth': map<int, int>)
    requires Reports(e, a, session, tick, truth) && tick <= tick'
    requires forall k :: k in truth ==> k in truth' && truth'[k] == truth[k]
    requires || SameInbox(e, a, b)
             || (GotIt(e, a, m, b) && OnTick(e, a, session, tick)
                 && (m.RequestHash? ==> tick in truth' && HashOf(e, a) == truth'[tick]))
    ensures Reports(e, b, session, tick', truth')
  {
    if b.origin.Started? {
      var ra, rb := At(e, a).replies, At(e, b).replies;
      var w := At(e, a).world;
      if m.RequestHash? && !SameInbox(e, a, b) {
        assert rb == ra + [Reply(w.gameTick, e.hash(w.gameTick, w.state))];
      } else {
        assert rb == ra;
      }
    }
  }

  /** A broadcast keeps the reports true: `truth'` and `t.currentTick` allow for a tick or a new report. */
  lemma ToldTruthful<W>(e: Engine<W>, s: State<W>, m: Msg, t: State<W>, tick: int, truth: map<int, int>, truth': map<int, int>)
    requires Wf(s) && Wf(t) && Told(e, s, m, t) && tick <= s.currentTick
    requires forall c :: c in s.clients ==> OnTick(e, s.inboxes[s.clients[c]], s.session, tick)
    requires s.currentTick == if m.NewTick? then tick + 1 else tick
    requires forall b :: b in s.inboxes ==> Reports(e, b, s.session, tick, truth)
    requires forall k :: k in truth ==> k in truth' && truth'[k] == truth[k]
    requires m.RequestHash? ==> tick in truth' && forall c :: c in s.clients ==>
      HashOf(e, s.inboxes[s.clients[c]]) == truth'[tick]
    requires CheckersOk(s, truth')
    ensures Truthful(e, t, truth')
  {
    assert CheckersOk(t, truth');
    forall c | c in t.clients ensures OnTick(e, t.inboxes[t.clients[c]], t.session, t.currentTick) {
      assert Live(s, s.clients[c]);
      assert GotIt(e, s.inboxes[s.clients[c]], m, t.inboxes[t.clients[c]]);
    }
    forall i: nat | i < |t.inboxes| ensures Reports(e, t.inboxes[i], t.session, t.currentTick, truth') {
      var a, b := s.inboxes[i], t.inboxes[i];
      assert a in s.inboxes;
      if SameInbox(e, a, b) {
        ReportKept(e, a, m, b, s.session, tick, s.currentTick, truth, truth');
      } else {
        var c :| c in s.clients && s.clients[c] == i;
        assert OnTick(e, a, s.session, tick);
        ReportKept(e, a, m, b, s.session, tick, s.currentTick, truth, truth');
      }
    }
  }

  lemma SameShape<W>(s: State<W>, t: State<W>)
    requires Wf(s) && t == s.(currentTick := t.currentTick, hashes := t.hashes)
    ensures Wf(t)
  {
    assert forall j :: Waiting(s, j) == Waiting(t, j);
    assert forall i: nat :: Live(s, i) == Live(t, i);
  }

  lemma NewTickTruthful<W>(e: Engine<W>, s: State<W>, slow: seq<Evict>, truth: map<int, int>)
    requires Wf(s) && Truthful(e, s, truth)
    ensures Wf(SendNewTick(s, slow)) && Truthful(e, SendNewTick(s, slow), truth)
    ensures forall t :: t in truth ==> t < SendNewTick(s, slow).currentTick
  {
    var s1 := s.(currentTick := s.currentTick + 1);
    SameShape(s, s1);
    SendAllTold(e, s1, NewTick, slow);
    ToldTruthful(e, s1, NewTick, SendNewTick(s, slow), s.currentTick, truth, truth);
  }

  /** The hash the clients agree on at this moment. */
  ghost function CommonHash<W>(e: Engine<W>, s: State<W>): int
    requires Wf(s)
  {
    if exists c :: c in s.clients then (var c :| c in s.clients; HashOf(e, s.inboxes[s.clients[c]])) else 0
  }

  lemma HashIsCommon<W>(e: Engine<W>, s: State<W>, c: int)
    requires Wf(s) && InSync(e, s) && c in s.clients
    ensures HashOf(e, s.inboxes[s.clients[c]]) == CommonHash(e, s)
  {
    hide ConsumeAll;
    assert Live(s, s.clients[c]);
  }

  lemma CheckerAdded<W>(s: State<W>, truth: map<int, int>, h: int)
    requires CheckersOk(s, truth)
    ensures CheckersOk(s.(hashes := s.hashes[s.currentTick := Checker(|s.clients|, map[])]), truth[s.currentTick := h])
  {}

  lemma RequestHashTruthful<W>(e: Engine<W>, s: State<W>, slow: seq<Evict>, truth: map<int, int>) returns (truth': map<int, int>)
    requires Wf(s) && InSync(e, s) && Truthful(e, s, truth)
    requires forall t :: t in truth ==> t < s.currentTick
    ensures Wf(CheckForHashStart(s, slow)) && Truthful(e, CheckForHashStart(s, slow), truth')
  {
    hide SendAll, Told, ConsumeAll, CommonHash, HashOf, InSync, CheckersOk;
    if s.currentTick % StartHashCheckEvery != 0 || |s.clients| < 2 { return truth; }
    var tick := s.currentTick;
    truth' := truth[tick := CommonHash(e, s)];
    var s1 := s.(hashes := s.hashes[tick := Checker(|s.clients|, map[])]);
    SameShape(s, s1);
    SendAllTold(e, s1, RequestHash(tick), slow);
    CheckerAdded(s, truth, CommonHash(e, s));
    forall c | c in s.clients
      ensures Live(s, s.clients[c]) && HashOf(e, s.inboxes[s.clients[c]]) == truth'[tick]
    {
      assert Live(s, s.clients[c]);
      HashIsCommon(e, s, c);
    }
    ToldTruthful(e, s1, RequestHash(tick), SendAll(s1, RequestHash(tick), slow), tick, truth, truth');
  }

  // ----- the master

  ghost function Outcome<W>(r: MasterSend<W>): State<W> { r.state }

  /** A message to the master only ever removes clients; it is stuck exactly when the master it would
      have to remove is not a client. */
  lemma {:induction false} LoopMasterCalm<W>(e: Engine<W>, s: State<W>, m: Msg, slow: seq<Evict>)
    requires Wf(s) && Inert(m) && s.status.Running? && s.masterID != -1
    ensures var r := LoopMaster(s, m, slow);
      && Wf(r.state)
      && (r.Hangs? <==> s.masterID !in s.clients)
      && (r.Hangs? ==> r.state == s.(status := Stuck))
      && (!r.Hangs? ==> Calm(e, s, r.state))
      && (r.Sent? ==> SentToMaster(e, r.state, m))
    decreases |slow|
  {
    if s.masterID in s.clients && slow == [] {
      PutInert(e, s, s.masterID, m);
      assert Live(s, s.clients[s.masterID]);
    } else if s.masterID !in s.clients {
      assert forall j :: Waiting(s, j) == Waiting(s.(status := Stuck), j);
      assert forall i: nat :: Live(s, i) == Live(s.(status := Stuck), i);
    } else {
      var v := slow[0].(id := s.masterID);
      RemoveCalm(e, s, v, [Notice(TooSlow)]);
      var s1 := Remove(s, v, [Notice(TooSlow)]);
      if s1.masterID != -1 {
        assert s1.masterID in s1.clients;
        LoopMasterCalm(e, s1, m, slow[1..]);
        CalmTrans(e, s, s1, LoopMaster(s1, m, slow[1..]).state);
      }
    }
  }

  ghost predicate SentToMaster<W>(e: Engine<W>, s: State<W>, m: Msg)
    requires Wf(s)
  {
    && s.masterID in s.clients && Live(s, s.clients[s.masterID])
    && s.inboxes[s.clients[s.masterID]].sent != []
    && s.inboxes[s.clients[s.masterID]].sent[|s.inboxes[s.clients[s.masterID]].sent| - 1] == m
  }

  lemma CalmRefl<W>(e: Engine<W>, s: State<W>)
    ensures Calm(e, s, s)
  {
    forall i | 0 <= i < |s.inboxes| ensures SameInbox(e, s.inboxes[i], s.inboxes[i]) {}
  }

  lemma SendMasterCalm<W>(e: Engine<W>, s: State<W>, m: Msg, slow: seq<Evict>)
    requires Wf(s) && Inert(m) && s.status.Running?
    ensures var r := SendMaster(s, m, slow);
      && Wf(r.state)
      && (r.Hangs? <==> s.clients != map[] && s.masterID !in s.clients)
      && (r.Hangs? ==> r.state == s.(status := Stuck))
      && (!r.Hangs? ==> Calm(e, s, r.state))
      && (r.Sent? ==> SentToMaster(e, r.state, m))
  {
    if s.clients == map[] { CalmRefl(e, s); } else { LoopMasterCalm(e, s, m, slow); }
  }

  // ----- joining

  /** The joiner's world is the one the master's client has when it reads the MAP_UPLOAD. */
  lemma SnapshotIsMasterWorld<W>(e: Engine<W>, s: State<W>, tick: int)
    requires Wf(s) && SentToMaster(e, s, MapUpload(tick))
    ensures Snapshot(e, s) == Started(At(e, s.inboxes[s.clients[s.masterID]]).world, s.session)
  {
    var b := s.inboxes[s.clients[s.masterID]];
    var n := |b.sent| - 1;
    assert b.sent == b.sent[..n] + [MapUpload(tick)];
    ConsumeOne(e, Fresh(b.origin.world), b.sent[..n], MapUpload(tick));
  }

  ghost function JoinStep<W>(e: Engine<W>, s: State<W>, slow: seq<Evict>): State<W>
    requires s.callbacks != []
  {
    JoinOne(e, s, s.callbacks[0], slow).(callbacks := s.callbacks[1..])
  }

  lemma DropJoiner<W>(s: State<W>)
    requires Wf(s) && s.callbacks != []
    ensures Wf(s.(callbacks := s.callbacks[1..]))
  {
    var t := s.(callbacks := s.callbacks[1..]);
    forall j | j in t.callbacks ensures Waiting(t, j) { assert Waiting(s, j); }
    assert forall i: nat :: Live(s, i) == Live(t, i);
  }

  lemma CloseJoiner<W>(e: Engine<W>, s: State<W>)
    requires Wf(s) && s.callbacks != []
    ensures var t := Close(s, s.callbacks[0].inbox).(callbacks := s.callbacks[1..]);
      && Wf(t) && t.clients == s.clients
      && (forall i :: 0 <= i < |s.inboxes| && s.inboxes[i].origin.Started? ==> t.inboxes[i] == s.inboxes[i])
      && (forall i :: 0 <= i < |s.inboxes| && s.inboxes[i].origin.NotStarted? ==> t.inboxes[i].origin.NotStarted?)
      && t == s.(inboxes := t.inboxes, callbacks := s.callbacks[1..]) && |t.inboxes| == |s.inboxes|
  {
    var j := s.callbacks[0];
    assert Waiting(s, j);
    var t := Close(s, j.inbox).(callbacks := s.callbacks[1..]);
    forall k | k in t.callbacks ensures Waiting(t, k) {
      var n :| 0 <= n < |t.callbacks| && t.callbacks[n] == k;
      assert s.callbacks[n + 1] == k && Waiting(s, k);
    }
    forall c | c in t.clients ensures Live(t, t.clients[c]) { assert Live(s, s.clients[c]); }
  }

  /** A step that only touches inboxes that never started. */
  lemma UnstartedKeeps<W>(e: Engine<W>, s: State<W>, t: State<W>, truth: map<int, int>)
    requires Wf(s) && Wf(t) && t == s.(inboxes := t.inboxes, callbacks := t.callbacks) && |t.inboxes| >= |s.inboxes|
    requires forall i :: 0 <= i < |s.inboxes| && s.inboxes[i].origin.Started? ==> t.inboxes[i] == s.inboxes[i]
    requires forall i :: 0 <= i < |t.inboxes| && (i >= |s.inboxes| || s.inboxes[i].origin.NotStarted?) ==> t.inboxes[i].origin.NotStarted?
    ensures InSync(e, s) ==> InSync(e, t)
    ensures Quiet(e, s) ==> Quiet(e, t)
    ensures Truthful(e, s, truth) ==> Truthful(e, t, truth)
  {
    forall c | c in t.clients ensures t.inboxes[t.clients[c]] == s.inboxes[s.clients[c]] { assert Live(s, s.clients[c]); }
    if Truthful(e, s, truth) {
      forall b | b in t.inboxes ensures Reports(e, b, t.session, t.currentTick, truth) {
        var i :| 0 <= i < |t.inboxes| && t.inboxes[i] == b;
        if b.origin.Started? { assert s.inboxes[i] in s.inboxes; }
      }
    }
  }

  lemma AdmitWf<W>(e: Engine<W>, s: State<W>, w: World<W>)
    requires Wf(s) && s.callbacks != [] && s.masterID != -1
    ensures var j := s.callbacks[0];
      && Waiting(s, j)
      && Wf(s.(clients := s.clients[j.id := j.inbox], callbacks := s.callbacks[1..],
               inboxes := s.inboxes[j.inbox := s.inboxes[j.inbox].(origin := Started(w, s.session))]))
  {
    var j := s.callbacks[0];
    assert Waiting(s, j);
    var t := s.(clients := s.clients[j.id := j.inbox], callbacks := s.callbacks[1..],
                inboxes := s.inboxes[j.inbox := s.inboxes[j.inbox].(origin := Started(w, s.session))]);
    forall c | c in s.clients ensures s.clients[c] != j.inbox { assert Live(s, s.clients[c]); }
    forall c | c in t.clients ensures Live(t, t.clients[c]) && c >= 1 { if c != j.id { assert Live(s, s.clients[c]); } }
    forall k | k in t.callbacks ensures Waiting(t, k) {
      var n :| 0 <= n < |t.callbacks| && t.callbacks[n] == k;
      assert s.callbacks[n + 1] == k && Waiting(s, k);
    }
  }

  /** The first in line has become a client with world `w`. */
  ghost predicate Admitted<W>(s: State<W>, t: State<W>, w: World<W>) {
    s.callbacks != [] && Waiting(s, s.callbacks[0]) &&
    var j := s.callbacks[0];
    t == s.(clients := s.clients[j.id := j.inbox], callbacks := s.callbacks[1..],
            inboxes := s.inboxes[j.inbox := s.inboxes[j.inbox].(origin := Started(w, s.session))])
  }

  lemma AdmitSync<W>(e: Engine<W>, s: State<W>, t: State<W>, w: World<W>)
    requires Wf(s) && Wf(t) && InSync(e, s) && Quiet(e, s) && Admitted(s, t, w)
    requires s.masterID in s.clients && w == At(e, s.inboxes[s.clients[s.masterID]]).world
    ensures InSync(e, t) && Quiet(e, t)
  {
    hide Tick, Apply;
    var j := s.callbacks[0];
    assert Live(s, s.clients[s.masterID]);
    assert At(e, t.inboxes[j.inbox]) == Fresh(w);
    hide At;
    forall c | c in t.clients
      ensures At(e, t.inboxes[t.clients[c]]).world == w && At(e, t.inboxes[t.clients[c]]).pending == []
    {
      if c != j.id { assert Live(s, s.clients[c]); }
    }
  }

  lemma AdmitTruthful<W>(e: Engine<W>, s: State<W>, t: State<W>, w: World<W>, truth: map<int, int>)
    requires Wf(s) && Wf(t) && Admitted(s, t, w) && Truthful(e, s, truth)
    requires s.masterID in s.clients && w == At(e, s.inboxes[s.clients[s.masterID]]).world
    ensures Truthful(e, t, truth)
  {
    hide Tick, Apply;
    var j := s.callbacks[0];
    assert Live(s, s.clients[s.masterID]);
    assert At(e, t.inboxes[j.inbox]) == Fresh(w);
    hide At;
    forall c | c in t.clients ensures OnTick(e, t.inboxes[t.clients[c]], t.session, t.currentTick) {
      assert OnTick(e, s.inboxes[s.clients[s.masterID]], s.session, s.currentTick);
      if c != j.id { assert OnTick(e, s.inboxes[s.clients[c]], s.session, s.currentTick); assert Live(s, s.clients[c]); }
    }
    forall b | b in t.inboxes ensures Reports(e, b, t.session, t.currentTick, truth) {
      var i :| 0 <= i < |t.inboxes| && t.inboxes[i] == b;
      assert s.inboxes[i] in s.inboxes;
    }
  }

  lemma AdmitKeeps<W>(e: Engine<W>, s: State<W>, t: State<W>, w: World<W>, truth: map<int, int>)
    requires Wf(s) && Wf(t) && InSync(e, s) && Quiet(e, s) && Admitted(s, t, w)
    requires s.masterID in s.clients && w == At(e, s.inboxes[s.clients[s.masterID]]).world
    ensures InSync(e, t) && Quiet(e, t)
    ensures Truthful(e, s, truth) ==> Truthful(e, t, truth)
    ensures Safe(s) && s.callbacks[0].login in s.players ==> Safe(t)
  {
    AdmitSync(e, s, t, w);
    if Truthful(e, s, truth) { AdmitTruthful(e, s, t, w, truth); }
    hide At, InSync, Quiet, Truthful, Wf;
  }

  ghost predicate JoinKept<W>(e: Engine<W>, s: State<W>, t: State<W>, truth: map<int, int>)
    requires Wf(s)
  {
    && Wf(t) && InSync(e, t) && Quiet(e, t)
    && (Truthful(e, s, truth) ==> Truthful(e, t, truth))
    && (Safe(s) ==> Safe(t) && t.status.Running?)
  }

  lemma JoinClosed<W>(e: Engine<W>, s: State<W>, truth: map<int, int>)
    requires Wf(s) && s.status.Running? && s.callbacks != [] && InSync(e, s) && Quiet(e, s)
    ensures JoinKept(e, s, Close(s, s.callbacks[0].inbox).(callbacks := s.callbacks[1..]), truth)
  {
    CloseJoiner(e, s);
    UnstartedKeeps(e, s, Close(s, s.callbacks[0].inbox).(callbacks := s.callbacks[1..]), truth);
  }

  lemma JoinStuck<W>(e: Engine<W>, s: State<W>, truth: map<int, int>)
    requires Wf(s) && s.status.Running? && s.callbacks != [] && InSync(e, s) && Quiet(e, s)
    requires s.clients != map[] && s.masterID !in s.clients
    ensures JoinKept(e, s, s.(status := Stuck, callbacks := s.callbacks[1..]), truth)
  {
    DropJoiner(s);
    var u := s.(callbacks := s.callbacks[1..]);
    var t := u.(status := Stuck);
    assert forall j :: Waiting(u, j) == Waiting(t, j);
    assert forall i: nat :: Live(u, i) == Live(t, i);
    UnstartedKeeps(e, s, u, truth);
  }

  lemma JoinAdmitted<W>(e: Engine<W>, s: State<W>, tick: int, truth: map<int, int>)
    requires Wf(s) && s.status.Running? && s.callbacks != [] && InSync(e, s) && Quiet(e, s)
    requires SentToMaster(e, s, MapUpload(tick)) && s.callbacks[0].login in s.players && s.callbacks[0].inbox < |s.inboxes|
    ensures var j := s.callbacks[0];
      JoinKept(e, s, s.(clients := s.clients[j.id := j.inbox], callbacks := s.callbacks[1..],
                        inboxes := s.inboxes[j.inbox := s.inboxes[j.inbox].(origin := Snapshot(e, s))]), truth)
  {
    hide ConsumeAll, Snapshot;
    var j := s.callbacks[0];
    SnapshotIsMasterWorld(e, s, tick);
    assert s.masterID != -1;
    var w := At(e, s.inboxes[s.clients[s.masterID]]).world;
    AdmitWf(e, s, w);
    AdmitKeeps(e, s, s.(clients := s.clients[j.id := j.inbox], callbacks := s.callbacks[1..],
                        inboxes := s.inboxes[j.inbox := s.inboxes[j.inbox].(origin := Snapshot(e, s))]), w, truth);
  }

  lemma CalmJoin<W>(e: Engine<W>, s: State<W>, s1: State<W>, t: State<W>, truth: map<int, int>)
    requires Wf(s) && Wf(s1) && Calm(e, s, s1) && JoinKept(e, s1, t, truth)
    ensures JoinKept(e, s, t, truth)
  {
    CalmKeeps(e, s, s1);
    if Truthful(e, s, truth) { CalmTruthful(e, s, s1, truth); }
  }

  lemma JoinStepKeeps<W>(e: Engine<W>, s: State<W>, slow: seq<Evict>, truth: map<int, int>)
    requires Wf(s) && s.status.Running? && s.callbacks != [] && InSync(e, s) && Quiet(e, s)
    ensures JoinKept(e, s, JoinStep(e, s, slow), truth)
  {
    hide Snapshot, SendMaster, InSync, Quiet, JoinKept, Truthful, Close;
    var j := s.callbacks[0];
    if j.login !in s.players {
      JoinClosed(e, s, truth);
      return;
    }
    SendMasterCalm(e, s, MapUpload(s.currentTick), slow);
    var r := SendMaster(s, MapUpload(s.currentTick), slow);
    var s1 := r.state;
    if r.Hangs? {
      JoinStuck(e, s, truth);
      return;
    }
    CalmKeeps(e, s, s1);
    if r.Failed? {
      JoinClosed(e, s1, truth);
    } else {
      assert Waiting(s1, s1.callbacks[0]);
      assert s1.clients.Keys != {};
      assert s1.players == s.players;
      JoinAdmitted(e, s1, s.currentTick, truth);
    }
    CalmJoin(e, s, s1, JoinStep(e, s, slow), truth);
  }

  /** Whatever clients have waiting, a map request leaves the books in order. */
  lemma JoinStepWf<W>(e: Engine<W>, s: State<W>, slow: seq<Evict>)
    requires Wf(s) && s.status.Running? && s.callbacks != []
    ensures Wf(JoinStep(e, s, slow))
  {
    hide Snapshot, SendMaster, Close, Wf;
    var j := s.callbacks[0];
    if j.login !in s.players {
      CloseJoiner(e, s);
      return;
    }
    SendMasterCalm(e, s, MapUpload(s.currentTick), slow);
    var r := SendMaster(s, MapUpload(s.currentTick), slow);
    var s1 := r.state;
    if r.Hangs? {
      DropJoiner(s);
      StuckIsWf(s.(callbacks := s.callbacks[1..]));
    } else if r.Failed? {
      CloseJoiner(e, s1);
    } else {
      AdmitSnapshotWf(e, s1, s.currentTick);
    }
  }

  lemma StuckIsWf<W>(s: State<W>)
    requires Wf(s)
    ensures Wf(s.(status := Stuck))
  {
    var t := s.(status := Stuck);
    assert forall j :: Waiting(s, j) == Waiting(t, j);
    assert forall i: nat :: Live(s, i) == Live(t, i);
  }

  lemma AdmitSnapshotWf<W>(e: Engine<W>, s: State<W>, tick: int)
    requires Wf(s) && s.callbacks != [] && SentToMaster(e, s, MapUpload(tick))
    ensures var j := s.callbacks[0];
      j.inbox < |s.inboxes| &&
      Wf(s.(clients := s.clients[j.id := j.inbox], callbacks := s.callbacks[1..],
            inboxes := s.inboxes[j.inbox := s.inboxes[j.inbox].(origin := Snapshot(e, s))]))
  {
    hide ConsumeAll, Snapshot;
    SnapshotIsMasterWorld(e, s, tick);
    assert s.masterID != -1;
    AdmitWf(e, s, At(e, s.inboxes[s.clients[s.masterID]]).world);
  }

  lemma {:induction false} JoinAllKeeps<W>(e: Engine<W>, s: State<W>, slow: seq<seq<Evict>>, truth: map<int, int>)
    requires Wf(s) && s.status.Running? && InSync(e, s) && Quiet(e, s)
    ensures var t := JoinAll(e, s, s.callbacks, slow);
      && Wf(t) && InSync(e, t) && Quiet(e, t)
      && (Truthful(e, s, truth) ==> Truthful(e, t, truth))
      && (Safe(s) ==> Safe(t) && t.status.Running?)
    decreases |s.callbacks|
  {
    if s.callbacks == [] {
      assert s.(callbacks := []) == s;
    } else {
      var now, rest := if slow == [] then [] else slow[0], if slow == [] then [] else slow[1..];
      JoinStepKeeps(e, s, now, truth);
      var t := JoinStep(e, s, now);
      if t.status.Running? {
        JoinAllKeeps(e, t, rest, truth);
      } else {
        assert JoinAll(e, t, t.callbacks, rest) == t;
      }
    }
  }
}
