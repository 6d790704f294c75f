/** What a hash check does to clients that are out of step (gopath/src/griefly-server/client.go:555-612). */
module HashChecks {
  import opened GameClient
  import opened RegistryModel
  import opened RegistryInvariants
  import opened LockstepTheorems

  /** Both have reported, and not the same hash. Nobody has the id -1. */
  predicate Differs(c: Checker, m: int, id: int) {
    m != -1 && m in c.hashes && id in c.hashes && c.hashes[id] != c.hashes[m]
  }

  ghost predicate HasRow(rows: seq<Row>, id: int) {
    exists r :: r in rows && r.id == id
  }

  /** The visit gets to everyone whose report differs from the master's. */
  ghost predicate Covers(c: Checker, m: int, rows: seq<Row>) {
    forall id :: Differs(c, m, id) ==> HasRow(rows, id)
  }

  lemma RemoveLeaves<W>(e: Engine<W>, s: State<W>, v: Evict, reason: seq<Msg>)
    requires Wf(s) && (forall m :: m in reason ==> Inert(m))
    ensures var t := Remove(s, v, reason);
      && Wf(t) && t.clients == s.clients - {v.id} && t.hashes == s.hashes
      && (s.masterID in t.clients ==> t.masterID == s.masterID)
  {
    hide *;
    RemoveCalm(e, s, v, reason);
    RemoveBooks(s, v, reason);
    assert v.id !in s.clients ==> s.clients - {v.id} == s.clients;
  }

  lemma PutBooks<W>(s: State<W>, i: nat, m: Msg)
    ensures var t := Put(s, i, m); t.hashes == s.hashes && t.masterID == s.masterID && t.clients == s.clients
  {}

  lemma CloseBooks<W>(s: State<W>, i: nat)
    ensures var t := Close(s, i); t.hashes == s.hashes && t.masterID == s.masterID && t.clients == s.clients
  {}

  lemma RemoveBooks<W>(s: State<W>, v: Evict, reason: seq<Msg>)
    ensures var t := Remove(s, v, reason); t.hashes == s.hashes && (s.masterID != v.id ==> t.masterID == s.masterID)
  {
    hide Elect, Put, Close;
    if v.id in s.clients {
      if reason != [] { PutBooks(s, s.clients[v.id], reason[0]); }
      var s1 := if reason == [] then s else SendOne(s, v.id, reason[0], v.told);
      CloseBooks(s1, s.clients[v.id]);
    }
  }

  lemma DumpLeaves<W>(e: Engine<W>, s: State<W>, id: int, d: Dump)
    requires Wf(s)
    ensures var t := DumpMap(s, id, d);
      && Wf(t) && t.clients == (if d.room then s.clients else s.clients - {id}) && t.hashes == s.hashes
      && (s.masterID in t.clients ==> t.masterID == s.masterID)
  {
    DumpCalm(e, s, id, d);
    RemoveLeaves(e, s, d.evict.(id := id), [Notice(TooSlow)]);
    hide Wf, Calm, Remove;
    assert id !in s.clients ==> s.clients - {id} == s.clients;
  }

  lemma {:induction false} RowsLeave<W>(e: Engine<W>, s: State<W>, unsynced: set<int>, rows: seq<Row>)
    requires Wf(s)
    ensures var t := EvictRows(s, unsynced, rows);
      && Wf(t) && t.hashes == s.hashes && (s.masterID in t.clients ==> t.masterID == s.masterID)
      && t.clients == s.clients - set r | r in rows && r.id in unsynced :: r.id
    decreases |rows|
  {
    hide Wf, Remove, DumpMap;
    if rows == [] {
    } else {
      var r := rows[0];
      assert rows == [r] + rows[1..];
      if r.id !in unsynced {
        RowsLeave(e, s, unsynced, rows[1..]);
      } else {
        DumpLeaves(e, s, r.id, r.dump);
        var s1 := DumpMap(s, r.id, r.dump);
        RemoveLeaves(e, s1, r.evict.(id := r.id), [Notice(OutOfSync)]);
        RowsLeave(e, Remove(s1, r.evict.(id := r.id), [Notice(OutOfSync)]), unsynced, rows[1..]);
      }
    }
  }

  /** What one check decides: exactly those whose report differs from the master's go, and the master itself if its
      inbox has no room for the request of its map. If the master has not reported nothing happens. */
  ghost predicate Decided<W>(s: State<W>, c: Checker, room: bool, t: State<W>) {
    && (s.masterID == -1 || s.masterID !in c.hashes ==> t == s)
    && t.hashes == s.hashes && (s.masterID in t.clients ==> t.masterID == s.masterID)
    && (forall id :: id in t.clients ==> id in s.clients && t.clients[id] == s.clients[id] && !Differs(c, s.masterID, id))
    && (forall id :: id in s.clients && id !in t.clients ==> Differs(c, s.masterID, id) || (id == s.masterID && !room))
  }

  lemma OneCheck<W>(e: Engine<W>, s: State<W>, c: Checker, v: Visit)
    requires Wf(s) && Covers(c, s.masterID, v.rows)
    ensures Decided(s, c, v.dump.room, CheckHashesOne(s, c, v))
  {
    var m := s.masterID;
    assert m == -1 ==> s.clients == map[];
    hide Wf, DumpMap, EvictRows;
    assert forall id :: Differs(c, m, id) <==> m != -1 && id in Unsynced(c, m);
    if m != -1 {
      DumpLeaves(e, s, m, v.dump);
      RowsLeave(e, DumpMap(s, m, v.dump), Unsynced(c, m), v.rows);
    }
  }

  // ----- all checks of a tick

  predicate IsDue<W>(s: State<W>, v: Visit) {
    v.tick in s.hashes && (v.expired || s.hashes[v.tick].waiting <= 0)
  }

  /** The check of `tick` is made. */
  ghost predicate Fires<W>(s: State<W>, vs: seq<Visit>, tick: int) {
    exists v :: v in vs && v.tick == tick && IsDue(s, v)
  }

  ghost predicate AllCovered<W>(s: State<W>, vs: seq<Visit>) {
    forall v :: v in vs && IsDue(s, v) ==> Covers(s.hashes[v.tick], s.masterID, v.rows)
  }

  /** In some check that is made the client's report differs from the master's. */
  ghost predicate CaughtOut<W>(s: State<W>, vs: seq<Visit>, id: int) {
    exists v :: v in vs && IsDue(s, v) && Differs(s.hashes[v.tick], s.masterID, id)
  }

  lemma VisitDecides<W>(e: Engine<W>, s: State<W>, v: Visit)
    requires Wf(s) && (IsDue(s, v) ==> Covers(s.hashes[v.tick], s.masterID, v.rows))
    ensures var t := CheckVisit(s, v);
      if IsDue(s, v) then t.hashes == s.hashes - {v.tick} && Decided(s, s.hashes[v.tick], v.dump.room, t.(hashes := s.hashes)) else t == s
  {
    if IsDue(s, v) {
      OneCheck(e, s, s.hashes[v.tick], v);
      hide CheckHashesOne, Wf, Differs;
    }
  }

  /** If the master is a client after the checks, then of the clients before them exactly those have gone whose report
      differs from the master's in some check that was made. So nobody out of step stays unnoticed, and nobody else
      goes. */
  lemma {:induction false} ChecksDropExactly<W>(e: Engine<W>, s: State<W>, vs: seq<Visit>)
    requires Wf(s) && AllCovered(s, vs) && s.masterID in CheckHashes(s, vs).clients
    ensures forall id :: id in s.clients ==> (id in CheckHashes(s, vs).clients <==> !CaughtOut(s, vs, id))
    decreases |vs|
  {
    hide Wf, CheckVisit, Differs;
    if vs != [] {
      var v, s1 := vs[0], CheckVisit(s, vs[0]);
      CheckVisitCalm(e, s, v);
      assert v in vs;
      VisitDecides(e, s, v);
      Shrinks(e, s1, vs[1..]);
      assert s1.masterID == s.masterID;
      assert vs == [v] + vs[1..];
      ChecksDropExactly(e, s1, vs[1..]);
      forall id | id in s.clients ensures id in CheckHashes(s, vs).clients <==> !CaughtOut(s, vs, id) {
        CaughtNext(s, s1, vs, id);
      }
    }
  }

  lemma Shrinks<W>(e: Engine<W>, s: State<W>, vs: seq<Visit>)
    requires Wf(s)
    ensures CheckHashes(s, vs).clients.Keys <= s.clients.Keys
  {
    CheckHashesCalm(e, s, vs);
    hide Wf, CheckHashes;
  }

  lemma CaughtNext<W>(s: State<W>, s1: State<W>, vs: seq<Visit>, id: int)
    requires vs != [] && s1.masterID == s.masterID
    requires s1.hashes == if IsDue(s, vs[0]) then s.hashes - {vs[0].tick} else s.hashes
    ensures CaughtOut(s, vs, id) <==> CaughtOut(s1, vs[1..], id) || (IsDue(s, vs[0]) && Differs(s.hashes[vs[0].tick], s.masterID, id))
  {
    hide Differs;
    assert vs == [vs[0]] + vs[1..];
  }

  // ----- from the reports to the check

  /** Reports of a tick, client and hash, one after the other. */
  ghost function AfterReports<W>(s: State<W>, tick: int, rs: seq<(int, int)>): State<W> {
    if rs == [] then s
    else HandleHash(AfterReports(s, tick, rs[..|rs| - 1]), rs[|rs| - 1].0, Reply(tick, rs[|rs| - 1].1))
  }

  /** Each report is stored under its sender, and one less is waited for; nothing else happens. */
  lemma {:induction false} ReportsFill<W>(s: State<W>, tick: int, rs: seq<(int, int)>)
    requires tick in s.hashes && forall i, k :: 0 <= i < k < |rs| ==> rs[i].0 != rs[k].0
    ensures var t := AfterReports(s, tick, rs);
      && t == s.(hashes := t.hashes) && tick in t.hashes
      && t.hashes[tick].waiting == s.hashes[tick].waiting - |rs|
      && (forall i :: 0 <= i < |rs| ==> rs[i].0 in t.hashes[tick].hashes && t.hashes[tick].hashes[rs[i].0] == rs[i].1)
  {
    if rs != [] { ReportsFill(s, tick, rs[..|rs| - 1]); }
  }

  /** All clients a check waits for have reported, and one reported another hash than the master: the checks of that tick
      take that client out, or the master has gone. */
  lemma DesyncIsNoticed<W>(e: Engine<W>, s: State<W>, tick: int, rs: seq<(int, int)>, vs: seq<Visit>, m: nat, c: nat)
    requires Wf(s) && tick in s.hashes && s.hashes[tick].waiting == |rs|
    requires forall i, k :: 0 <= i < k < |rs| ==> rs[i].0 != rs[k].0
    requires m < |rs| && c < |rs| && rs[m].0 == s.masterID && s.masterID != -1 && rs[c].1 != rs[m].1 && rs[c].0 in s.clients
    requires var t := AfterReports(s, tick, rs);
      && (exists v :: v in vs && v.tick == tick) && AllCovered(t, vs)
    ensures var u := CheckHashes(AfterReports(s, tick, rs), vs);
      rs[c].0 !in u.clients || s.masterID !in u.clients
  {
    ReportsFill(s, tick, rs);
    var t := AfterReports(s, tick, rs);
    SameShape(s, t);
    hide Wf, CheckHashes, AfterReports, Covers;
    if s.masterID in CheckHashes(t, vs).clients {
      ChecksDropExactly(e, t, vs);
      var v :| v in vs && v.tick == tick;
      assert IsDue(t, v) && Differs(t.hashes[tick], t.masterID, rs[c].0);
    }
  }
}
