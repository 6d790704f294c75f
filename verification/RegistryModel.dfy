/** The server's registry (gopath/src/griefly-server/client.go) on values.

    `State` is the registry's fields plus, for every inbox channel ever made,
    everything that was sent into it.  What the Go runtime or the network decides
    is an argument of the step: which inboxes were full at the moment of a send
    (so every capacity and every draining speed is covered), the order in which
    a map is ranged over, which client a range yields first when a master is
    elected, and whether a deadline has passed.
 */
module RegistryModel {
  import opened GameClient

  const StartHashCheckEvery := 1
  const SendConnCountEvery := 5

  datatype Player = Player(id: int, admin: bool)

  datatype Checker = Checker(waiting: int, hashes: map<int, int>)

  /** A postponed map request: the closure `requestMap`. */
  datatype Joiner = Joiner(login: string, id: int, inbox: nat)

  /** Where the client behind an inbox got its world from. */
  datatype Origin<W> = NotStarted | Started(world: World<W>, session: nat)

  datatype Inbox<W> = Inbox(id: int, origin: Origin<W>, sent: seq<Msg>, closed: bool)

  /** `Stuck`: `sendMaster` loops for ever.  `Panicked`: a closed channel was
      closed again or sent to. */
  datatype Status = Running | Stuck | Panicked

  datatype State<W> = State(
    nextID: int,
    clients: map<int, nat>,
    players: map<string, Player>,
    masterID: int,
    hashes: map<int, Checker>,
    currentTick: int,
    callbacks: seq<Joiner>,
    inboxes: seq<Inbox<W>>,
    session: nat,
    status: Status)

  function Init<W>(): State<W> {
    State(1, map[], map[], -1, map[], 0, [], [], 0, Running)
  }

  /** The removal of client `id`; `told` says its inbox had room for the reason,
      `heir` is the client the election would meet first. */
  datatype Evict = Evict(id: int, told: bool, heir: int)

  datatype Dump = Dump(room: bool, evict: Evict)

  datatype Row = Row(id: int, dump: Dump, evict: Evict)

  datatype Visit = Visit(tick: int, expired: bool, dump: Dump, rows: seq<Row>)

  datatype TickChoice = TickChoice(
    slowOnTick: seq<Evict>, slowOnHash: seq<Evict>, visits: seq<Visit>,
    slowOnCount: seq<Evict>, slowMasters: seq<seq<Evict>>)

  datatype Event<W> =
    | Login(login: string, admin: bool, seed: W, self: Evict, slow: seq<Evict>)
    | Drop(evict: Evict)
    | HashReport(from: int, reply: Reply)
    | Restart(from: int, evicts: seq<Evict>)
    | ForcedTick(from: int, choice: TickChoice)
    | TimerTick(choice: TickChoice)
    | PingFrom(from: int, pingId: string, room: bool)
    | GameMessage(from: int, kind: int, body: string, slow: seq<Evict>)

  // ----- channels

  ghost function Put<W>(s: State<W>, i: nat, m: Msg): State<W> {
    if i >= |s.inboxes| then s
    else if s.inboxes[i].closed then s.(status := Panicked)
    else s.(inboxes := s.inboxes[i := s.inboxes[i].(sent := s.inboxes[i].sent + [m])])
  }

  ghost function Close<W>(s: State<W>, i: nat): State<W> {
    if i >= |s.inboxes| then s
    else if s.inboxes[i].closed then s.(status := Panicked)
    else s.(inboxes := s.inboxes[i := s.inboxes[i].(closed := true)])
  }

  // ----- sending and removing

  ghost function Elect(clients: map<int, nat>, heir: int): int {
    if heir in clients then heir
    else if exists id :: id in clients then (var id :| id in clients; id)
    else -1
  }

  ghost function CleanUp<W>(s: State<W>): State<W> {
    s.(players := map[], nextID := 1)
  }

  ghost function SendOne<W>(s: State<W>, id: int, m: Msg, room: bool): State<W> {
    if id in s.clients && room then Put(s, s.clients[id], m) else s
  }

  /** removePlayer; `reason` is empty for a nil reason. */
  ghost function Remove<W>(s: State<W>, e: Evict, reason: seq<Msg>): State<W> {
    if e.id !in s.clients then s
    else
      var s1 := if reason == [] then s else SendOne(s, e.id, reason[0], e.told);
      var s2 := Close(s1, s.clients[e.id]).(clients := s.clients - {e.id});
      var s3 := if s.masterID == e.id then s2.(masterID := Elect(s2.clients, e.heir)) else s2;
      if s3.masterID == -1 then CleanUp(s3) else s3
  }

  ghost function RemoveAll<W>(s: State<W>, es: seq<Evict>, reason: seq<Msg>): State<W>
    decreases |es|
  {
    if es == [] then s else RemoveAll(Remove(s, es[0], reason), es[1..], reason)
  }

  ghost function Targets<W>(s: State<W>, slow: seq<Evict>): set<nat> {
    set id | id in s.clients && (forall e | e in slow :: e.id != id) :: s.clients[id]
  }

  ghost function Broadcast<W>(s: State<W>, m: Msg, to: set<nat>): State<W> {
    if exists i: nat :: i in to && i < |s.inboxes| && s.inboxes[i].closed then s.(status := Panicked)
    else s.(inboxes := seq(|s.inboxes|, i requires 0 <= i < |s.inboxes| =>
      if i in to then s.inboxes[i].(sent := s.inboxes[i].sent + [m]) else s.inboxes[i]))
  }

  /** sendAll: everyone with room gets `m`, then the others are removed. */
  ghost function SendAll<W>(s: State<W>, m: Msg, slow: seq<Evict>): State<W> {
    RemoveAll(Broadcast(s, m, Targets(s, slow)), slow, [Notice(TooSlow)])
  }

  datatype MasterSend<W> = Sent(state: State<W>) | Failed(state: State<W>) | Hangs(state: State<W>)

  /** sendMaster: `slow` lists the masters found full one after the other. */
  ghost function SendMaster<W>(s: State<W>, m: Msg, slow: seq<Evict>): MasterSend<W> {
    if s.clients == map[] then Failed(s) else LoopMaster(s, m, slow)
  }

  ghost function LoopMaster<W>(s: State<W>, m: Msg, slow: seq<Evict>): MasterSend<W>
    decreases |slow|
  {
    if s.masterID in s.clients && slow == [] then Sent(Put(s, s.clients[s.masterID], m))
    else
      var e := if slow == [] then Evict(s.masterID, false, s.masterID) else slow[0].(id := s.masterID);
      var s1 := Remove(s, e, [Notice(TooSlow)]);
      if s1.masterID == -1 then Failed(s1)
      else if s.masterID !in s.clients then Hangs(s.(status := Stuck))
      else LoopMaster(s1, m, slow[1..])
  }

  // ----- joining

  ghost function CheckForNewGame<W>(s: State<W>): State<W> {
    if s.clients == map[] then s.(currentTick := 0) else s
  }

  /** The tail of registerPlayer: replace an old connection, then become the
      master of a new world or queue a map request. */
  ghost function Attach<W>(s: State<W>, login: string, id: int, seed: W): State<W> {
    var s1 := if id in s.clients then Close(s, s.clients[id]).(clients := s.clients - {id}) else s;
    var i := |s1.inboxes|;
    if s1.masterID == -1 then
      s1.(masterID := id, clients := s1.clients[id := i], session := s1.session + 1,
          inboxes := s1.inboxes + [Inbox(id, Started(World(0, seed), s1.session + 1), [], false)])
    else
      s1.(callbacks := s1.callbacks + [Joiner(login, id, i)],
          inboxes := s1.inboxes + [Inbox(id, NotStarted, [], false)])
  }

  /** A new player entry, told to everyone. */
  ghost function Announce<W>(s: State<W>, login: string, admin: bool, slow: seq<Evict>): State<W> {
    SendAll(s.(nextID := s.nextID + 1, players := s.players[login := Player(s.nextID, admin)]), NewClient(s.nextID), slow)
  }

  ghost function RegisterNew<W>(s: State<W>, login: string, admin: bool, seed: W, slow: seq<Evict>): State<W> {
    if s.players == map[] && !admin then s
    else Attach(Announce(CheckForNewGame(s), login, admin, slow), login, s.nextID, seed)
  }

  /** registerPlayer, after authentication and guest naming. */
  ghost function Register<W>(s: State<W>, login: string, admin: bool, seed: W, self: Evict, slow: seq<Evict>): State<W> {
    if login !in s.players then RegisterNew(s, login, admin, seed, slow)
    else
      var s1 := CheckForNewGame(s);
      var id := s1.players[login].id;
      var s2 := Remove(s1, self.(id := id), []);
      if login !in s2.players then RegisterNew(s2, login, admin, seed, slow)
      else Attach(s2.(players := s2.players[login := Player(id, admin)]), login, id, seed)
  }

  /** The world the master's client uploads on the last message of its inbox. */
  function Snapshot<W>(e: Engine<W>, s: State<W>): Origin<W> {
    if s.masterID in s.clients && s.clients[s.masterID] < |s.inboxes| && s.inboxes[s.clients[s.masterID]].origin.Started? then
      var master := s.inboxes[s.clients[s.masterID]];
      var uploads := Replay(e, master.origin.world, master.sent).uploads;
      if uploads == [] then NotStarted else Started(uploads[|uploads| - 1], s.session)
    else NotStarted
  }

  /** One map request. */
  ghost function JoinOne<W>(e: Engine<W>, s: State<W>, j: Joiner, slow: seq<Evict>): State<W> {
    if j.login !in s.players then Close(s, j.inbox)
    else
      match SendMaster(s, MapUpload(s.currentTick), slow)
      case Hangs(s1) => s1
      case Failed(s1) => Close(s1, j.inbox)
      case Sent(s1) =>
        if j.inbox < |s1.inboxes| then
          s1.(clients := s1.clients[j.id := j.inbox],
              inboxes := s1.inboxes[j.inbox := s1.inboxes[j.inbox].(origin := Snapshot(e, s1))])
        else s1
  }

  /** invokeNextTickCallbacks over the callbacks `js` that are left. */
  ghost function JoinAll<W>(e: Engine<W>, s: State<W>, js: seq<Joiner>, slow: seq<seq<Evict>>): State<W>
    decreases |js|
  {
    if s.status.Stuck? then s
    else if js == [] then s.(callbacks := [])
    else
      var s1 := JoinOne(e, s, js[0], if slow == [] then [] else slow[0]);
      JoinAll(e, s1.(callbacks := js[1..]), js[1..], if slow == [] then [] else slow[1..])
  }

  // ----- hash checks

  ghost function DumpMap<W>(s: State<W>, id: int, d: Dump): State<W> {
    if id in s.clients && d.room then Put(s, s.clients[id], MapUpload(s.currentTick))
    else Remove(s, d.evict.(id := id), [Notice(TooSlow)])
  }

  function Unsynced(c: Checker, master: int): set<int> {
    if master in c.hashes then set id | id in c.hashes && c.hashes[id] != c.hashes[master] else {}
  }

  ghost function EvictRows<W>(s: State<W>, unsynced: set<int>, rows: seq<Row>): State<W>
    decreases |rows|
  {
    if rows == [] then s
    else if rows[0].id !in unsynced then EvictRows(s, unsynced, rows[1..])
    else
      var s1 := DumpMap(s, rows[0].id, rows[0].dump);
      EvictRows(Remove(s1, rows[0].evict.(id := rows[0].id), [Notice(OutOfSync)]), unsynced, rows[1..])
  }

  ghost function CheckHashesOne<W>(s: State<W>, c: Checker, v: Visit): State<W> {
    if s.masterID == -1 then s
    else
      var unsynced := Unsynced(c, s.masterID);
      if unsynced == {} then s
      else EvictRows(DumpMap(s, s.masterID, v.dump), unsynced, v.rows)
  }

  ghost function CheckVisit<W>(s: State<W>, v: Visit): State<W> {
    if v.tick in s.hashes && (v.expired || s.hashes[v.tick].waiting <= 0) then
      var s1 := CheckHashesOne(s, s.hashes[v.tick], v);
      s1.(hashes := s1.hashes - {v.tick})
    else s
  }

  ghost function CheckHashes<W>(s: State<W>, vs: seq<Visit>): State<W>
    decreases |vs|
  {
    if vs == [] then s else CheckHashes(CheckVisit(s, vs[0]), vs[1..])
  }

  ghost function CheckForHashStart<W>(s: State<W>, slow: seq<Evict>): State<W> {
    if s.currentTick % StartHashCheckEvery != 0 || |s.clients| < 2 then s
    else
      var s1 := s.(hashes := s.hashes[s.currentTick := Checker(|s.clients|, map[])]);
      SendAll(s1, RequestHash(s.currentTick), slow)
  }

  ghost function HandleHash<W>(s: State<W>, from: int, r: Reply): State<W> {
    if r.tick in s.hashes then
      var c := s.hashes[r.tick];
      s.(hashes := s.hashes[r.tick := Checker(c.waiting - 1, c.hashes[from := r.hash])])
    else s
  }

  // ----- ticks and the event loop

  ghost function MaybeSendConnCounter<W>(s: State<W>, slow: seq<Evict>): State<W> {
    if s.currentTick % SendConnCountEvery != 0 then s
    else SendAll(s, CurrentConnections(|s.clients|), slow)
  }

  ghost function SendNewTick<W>(s: State<W>, slow: seq<Evict>): State<W> {
    SendAll(s.(currentTick := s.currentTick + 1), NewTick, slow)
  }

  ghost function HandleNewTick<W>(e: Engine<W>, s: State<W>, t: TickChoice): State<W> {
    var s1 := SendNewTick(s, t.slowOnTick);
    var s2 := CheckForHashStart(s1, t.slowOnHash);
    var s3 := CheckHashes(s2, t.visits);
    var s4 := MaybeSendConnCounter(s3, t.slowOnCount);
    JoinAll(e, s4, s4.callbacks, t.slowMasters)
  }

  ghost predicate IsAdmin<W>(s: State<W>, id: int) {
    exists login :: login in s.players && s.players[login].id == id && s.players[login].admin
  }

  ghost function Step<W>(e: Engine<W>, s: State<W>, ev: Event<W>): State<W> {
    if !s.status.Running? then s
    else
      match ev
      case Login(login, admin, seed, self, slow) => Register(s, login, admin, seed, self, slow)
      case Drop(evict) => Remove(s, evict, [])
      case HashReport(from, reply) => HandleHash(s, from, reply)
      case Restart(from, evicts) =>
        if IsAdmin(s, from) then RemoveAll(s, evicts, [Notice(ServerRestarting)]) else s
      case ForcedTick(from, choice) => if IsAdmin(s, from) then HandleNewTick(e, s, choice) else s
      case TimerTick(choice) => HandleNewTick(e, s, choice)
      case PingFrom(from, pingId, room) => SendOne(s, from, Ping(pingId), room)
      case GameMessage(from, kind, body, slow) => SendAll(s, Game(kind, from, body), slow)
  }

  ghost function Run<W>(e: Engine<W>, evs: seq<Event<W>>): State<W> {
    if evs == [] then Init() else Step(e, Run(e, evs[..|evs| - 1]), evs[|evs| - 1])
  }
}
