# griefly, verified

griefly is a multiplayer game in deterministic lockstep: a Go server puts all messages in one order, and every
C++ client replays them on its own copy of the world. This project models the parts of it that have to be right for
that to work, and proves what they promise.

* **The lockstep protocol** (`GameClient`, `RegistryModel`, `RegistryInvariants`, `LockstepTheorems`,
  `LockstepLimits`, `HashChecks`, `InboxTheorems`, `RegistryServer`). The registry's state with the whole history of every inbox; one step per event.
  Which inboxes are full, in which order maps are ranged over, which client an election meets first, and whether a
  deadline has passed are arguments of a step, so the theorems hold for every inbox capacity, every speed of draining
  and every schedule. The world is an uninterpreted deterministic engine, and a snapshot is exact. `Registry` is the
  same state machine as a class whose methods are proved to do what the model says.
* **The atmosphere** (`AtmosModel`, `AtmosTheorems`, `AtmosSchedule`, `AtmosGridInPlace`). A blocked-layout cellular
  automaton: one visit of a cell and its four neighbours, the schedule of visits, a whole tick, and the code that
  does it in place on one array.
* **Line of sight** (`LosCalculator`, `LosVisibility`). The ray walkers against the exact line, and the list of
  visible tiles with its bitmap.
* **Saves** (`SerialFormat`, `SerialTheorems`, `FastSerializer`, `WorldFormat`, `WorldTheorems`, `WorldRuns`,
  `WorldHash`, `ObjectFactory`, `SynchronizedRandom`). The tagged format, the growing buffer and the reading cursor,
  the object table rebuilt by id, and why every save of a running game loads.
* **Framing** (`Framing`). The client's incremental parser over arbitrary chunks, and the server's reader.
* **Movement** (`KvGlobals`, `ForceWalk`, `Projectiles`). Error-accumulator walks under force, and the zigzag of
  projectiles.
* **Incremental indexes** (`ObjectProcessor`, `ProcessorInPlace`, `PhysicsLists`, `PhysicsInPlace`, `TileCache`,
  `TilesInPlace`). The processor's list and lookup set, the physics engine's lists, and the tile's cached levels and
  flags, each under callbacks and member changes.

`Arithmetic`, `CppInt`, `Options` and `Sequences` are shared helpers. In each part the code that changes state is a
class or an array method whose contract equates the new state with a function of the old one; the theorems are about
those functions.

## What the proofs found

* Lockstep itself, distinct player ids, and that no inbox is closed twice or sent to after it is closed need no
  assumption at all. That the master is one of the clients needs two: a NEW_CLIENT broadcast does not evict the last
  client, and a login with a map request still pending does not log in again into a new session. Without either
  there is a run that loses the master, and without the first one a run in which `sendMaster` loops for ever
  (`OverloadHangs`, `StaleRequestLosesMaster`). `LoginKeepsMasterIff` says exactly which login can lose the master:
  an accepted one of a new player who is given an id that a client still has. That no honest client is evicted as out
  of sync needs in addition that reports come from clients of the current session.
* A player who logs in twice between two ticks gets two map requests under one id, and the second takes the place of
  the first (`r.clients[id] = inbox`, client.go:334): the first inbox is neither closed nor anybody's
  (`DoubleLoginForgets`). `JoinForgetsNobodyIff` is the exact condition, and `RunForgetsNobody` says that without a
  double login no connection is ever forgotten.
* The processor ends its tick at the first entry it drops (`return` inside the loop, ObjectProcessor.cpp:39), so a due
  object behind a stale entry is not called in that tick (`MissedObject`). Whatever the called objects do,
  `CalledIffReached` and `RunStops` say exactly who is called and which entry goes; `CalledIff` says it in terms of the
  list before the run, for an object that those called before it leave alone.
* Tiles on the left edge of the viewport are never listed as visible although rays reach them, against the comment at
  LosCalculator.cpp:266; tiles in the row above the viewport share bitmap cells with tiles in its last row.
  `FirstCome` says exactly which tile is listed in every case.
* At a tile corner the comments (LosCalculator.cpp:90-91, 264) let both tiles beside the ray block it. The lookups round
  down, so that the code does so only toward the north-west (`CornerRule`); a diagonal gap can be seen through from one
  side only (`OneWayGap`). `WallsDecide` says exactly what blocks in each direction.
* Fire is hashed and not saved. A save keeps the hash exactly when nothing burns (up to 2^32 holders), so the exact
  snapshot that the lockstep theorems take for granted fails for a client that joins while something burns.
* A saved random generator continues its stream as long as fewer than 2^32 numbers have been drawn: the counter that
  is saved has 32 bits.
* A world loads only if its globals come before, and its processor not after, every object with a frequency; the
  order in which PrepareToMapgen makes the first objects sees to it for all later ones.
* An object put on a second tile without being taken off the first can leave the first one's cache stale
  (`TwoTilesGoStale`). `OpCachedIff` says exactly which operation does: only a new level of the object, and only when a
  tile that holds it without being its owner remembers a level that is no longer the least.

## Model

| member | source | states |
|---|---|---|
| GameClient.ConsumeConcat | sources/client/Game.cpp:214-321 | reading messages in two batches leaves the client as reading them at once |
| GameClient.TickPlaysAll | sources/client/Game.cpp:107-119 | NEW_TICK starts the tick, plays each waiting message in its order and finishes, whatever the engine does |
| GameClient.TickHears | sources/client/Game.cpp:214-321 | from one NEW_TICK to the next a client plays exactly the new clients and the four kinds of player messages it read, in the server's order |
| GameClient.GameIsHeard | sources/client/Game.cpp:307-315 | a player's message of each of the four kinds is played if it was read, and only then |
| GameClient.ReadAnswers | sources/client/Game.cpp:226-261 | each request for the map or for the hash is answered once, with the world as the last tick left it |
| GameClient.GameThread.constructor | sources/client/Game.cpp:205-212 | a client starts from the world it was given, with nothing waiting |
| GameClient.GameThread.ProcessInputMessages | sources/client/Game.cpp:214-321 | takes the queue up to the next NEW_TICK or to its end, keeps game messages in order, answers map and hash requests with the world as it is then |
| GameClient.GameThread.RunTick | sources/client/Game.cpp:107-120 | for every engine: started, given each waiting message in turn, finished; nothing waits afterwards |
| GameClient.GameThread.ProcessRound | sources/client/Game.cpp:96-127 | a round of the main loop is the replay of what it took |
| GameClient.GameThread.CatchUp | sources/client/Game.cpp:88-127 | however messages arrive, a client that keeps running rounds has replayed all of them |
| LockstepTheorems.Lockstep | gopath/src/griefly-server/client.go:132-157 | in every reachable state any two clients reach the same world and the same waiting messages once they read their inboxes, late joiners included |
| LockstepTheorems.RegistrySafety | gopath/src/griefly-server/client.go:273-389 | in every run ids are distinct and in 1..nextID-1, no inbox is closed twice or sent to after its close, and no master means no clients |
| LockstepTheorems.MasterIsClient | gopath/src/griefly-server/client.go:159-179 | under the session clauses the master is a client whenever there are clients, and sendMaster ends |
| LockstepTheorems.SendMasterHangsIff | gopath/src/griefly-server/client.go:159-179 | sendMaster loops for ever exactly when there are clients and the master is none of them |
| LockstepTheorems.OrderlySafe | gopath/src/griefly-server/client.go:181-219 | under the session clauses the master is a client, ids are below nextID and the server runs |
| LockstepTheorems.RunKeeps | gopath/src/griefly-server/client.go:181-219 | every run keeps the registry well formed, its clients in sync and no channel misused |
| LockstepTheorems.RunTruthful | gopath/src/griefly-server/client.go:536-553 | under all clauses there is one true hash for each tick of the session, which every client reports and every check holds |
| LockstepTheorems.NoFalseDesync | gopath/src/griefly-server/client.go:571-612 | under all clauses all hashes stored for a tick are equal, and a check evicts nobody, whoever is master then |
| LockstepTheorems.TickEvictsNobody | gopath/src/griefly-server/client.go:555-569 | under all clauses the hash checks of a tick change nothing but the list of checks |
| LockstepTheorems.ClientsCountTicks | gopath/src/griefly-server/client.go:221-230 | under all clauses every client has played exactly as many ticks as the server counts |
| LockstepTheorems.StepSync | gopath/src/griefly-server/client.go:181-219 | every event keeps the registry well formed and its clients in sync, and under the clauses keeps the master a client |
| LockstepTheorems.StepTruthful | gopath/src/griefly-server/client.go:181-219 | every event keeps one true hash for each tick |
| HashChecks.OneCheck | gopath/src/griefly-server/client.go:571-612 | what one check decides, from the reports alone |
| HashChecks.ChecksDropExactly | gopath/src/griefly-server/client.go:555-612 | if the master survives the checks of a tick, exactly those clients go whose report differs from its own in one that is made |
| HashChecks.ReportsFill | gopath/src/griefly-server/client.go:414-429 | each report is stored under its sender and one less is waited for |
| HashChecks.DesyncIsNoticed | gopath/src/griefly-server/client.go:536-612 | when all have reported, a client that differs from the master is taken out, or the master has gone |
| InboxTheorems.SendAllDelivers | gopath/src/griefly-server/client.go:132-157 | after a broadcast everyone who is left has exactly this message more, and the inboxes of the others are closed |
| InboxTheorems.RemoveCloses | gopath/src/griefly-server/client.go:350-372 | a client that is removed has its inbox closed, the reason last if there was room |
| InboxTheorems.TickIsSent | gopath/src/griefly-server/client.go:529-534 | a tick is counted and sent to everyone |
| InboxTheorems.CheckOpens | gopath/src/griefly-server/client.go:536-553 | with two clients or more each tick opens a check that waits for all of them, and asks them |
| InboxTheorems.CountIsSent | gopath/src/griefly-server/client.go:391-400 | on each fifth tick everyone is told the number of clients, on others nothing happens |
| InboxTheorems.StepForgetsNobody | gopath/src/griefly-server/client.go:181-219 | no event leaves an inbox behind that is neither closed nor a client's nor waiting for its map, if at a tick nobody waits who is connected or waits twice |
| InboxTheorems.RunForgetsNobody | gopath/src/griefly-server/client.go:232-389 | in every run without such a double login, while the server runs, no connection is forgotten |
| InboxTheorems.JoinForgetsNobodyIff | gopath/src/griefly-server/client.go:323-341 | whichever inboxes are full, a map request leaves no inbox behind exactly if the player has left or the id is no client's |
| InboxTheorems.DoubleLoginForgets | gopath/src/griefly-server/client.go:269-341 | a player who logs in twice before a tick leaves its first inbox neither closed nor any client's |
| RegistryInvariants.JoinStepKeeps | gopath/src/griefly-server/client.go:323-341 | a map request right after a tick lets the joiner in with the master's world, in sync with everyone |
| RegistryInvariants.SendAllTold | gopath/src/griefly-server/client.go:132-143 | after a broadcast every client left has the message exactly once, and those without room are gone |
| RegistryInvariants.SendMasterCalm | gopath/src/griefly-server/client.go:159-179 | a send to the master changes nobody's world, and hangs exactly when the master is no client |
| RegistryInvariants.RemoveCalm | gopath/src/griefly-server/client.go:350-389 | removing a client changes no other client's world and keeps the registry well formed |
| LockstepLimits.LoginKeepsMasterIff | gopath/src/griefly-server/client.go:232-317 | whatever inboxes are full, a login keeps the master among the clients exactly when its player is known, it is refused, or the next id is no client's |
| LockstepLimits.KnownKeepsMaster | gopath/src/griefly-server/client.go:273-286 | the login of a known player never loses the master |
| LockstepLimits.LoginLosesMaster | gopath/src/griefly-server/client.go:287-305 | a new login under an id still in use loses the master, if the master has that id or its inbox is full and the election meets that client first |
| LockstepLimits.OverloadHangs | gopath/src/griefly-server/client.go:295-305 | without the first session clause there is a run in which the server loops for ever |
| LockstepLimits.StaleRequestLosesMaster | gopath/src/griefly-server/client.go:319-341 | without the second there is a run that leaves a master and no clients |
| RegistryServer.Registry.constructor | gopath/src/griefly-server/client.go:101-106 | a new registry is the model's first state |
| RegistryServer.Registry.SendOne | gopath/src/griefly-server/client.go:145-157 | the message is in the inbox, or the client is missing or full and nothing changed |
| RegistryServer.Registry.RemovePlayer | gopath/src/griefly-server/client.go:350-389 | one client leaves, told the reason if there is room; a leaving master is replaced, the last one's leaving resets the players |
| RegistryServer.Registry.Disconnect | gopath/src/griefly-server/client.go:350-372 | the reason is sent if there is room, the inbox closed, the client forgotten |
| RegistryServer.Registry.Reelect | gopath/src/griefly-server/client.go:374-382 | a master that has gone is replaced by some client that is left, if any |
| RegistryServer.Registry.CleanUp | gopath/src/griefly-server/client.go:641-646 | players and ids start again, everything else stays |
| RegistryServer.Registry.Offer | gopath/src/griefly-server/client.go:132-138 | everyone with room has the message, the others are listed |
| RegistryServer.Registry.SendAll | gopath/src/griefly-server/client.go:132-143 | a broadcast as the model has it, with those who had no room removed |
| RegistryServer.Registry.RemoveDead | gopath/src/griefly-server/client.go:140-142 | all listed clients are removed one by one |
| RegistryServer.Registry.TryMaster | gopath/src/griefly-server/client.go:164-176 | one turn of the loop: the master has the message, or is removed and replaced |
| RegistryServer.Registry.SendMaster | gopath/src/griefly-server/client.go:159-179 | some master has the message, or nobody is left, or, when the master is none of the clients, the loop never ends |
| RegistryServer.Registry.CheckForNewGame | gopath/src/griefly-server/client.go:221-230 | the tick counter starts again when there are no clients |
| RegistryServer.Registry.Attach | gopath/src/griefly-server/client.go:301-342 | an old connection is closed; the newcomer becomes master of a new world or waits for the next tick |
| RegistryServer.Registry.Announce | gopath/src/griefly-server/client.go:287-299 | a new id, told to every client |
| RegistryServer.Registry.RegisterNew | gopath/src/griefly-server/client.go:258-342 | a login of an unknown player, refused to non-admins on an empty server |
| RegistryServer.Registry.RegisterPlayer | gopath/src/griefly-server/client.go:258-348 | a login keeps a known player's id, also when removing the old connection resets the server |
| RegistryServer.Registry.HandleHash | gopath/src/griefly-server/client.go:414-429 | a hash is stored under its tick and sender, or ignored when late |
| RegistryServer.Registry.HandlePing | gopath/src/griefly-server/client.go:482-489 | a ping goes back to its sender alone |
| RegistryServer.Registry.HandleGameMessage | gopath/src/griefly-server/client.go:509-519 | a game message is broadcast with its sender's id |
| RegistryServer.Registry.HandleRestart | gopath/src/griefly-server/client.go:431-468 | an admin's restart removes every client, anyone else's changes nothing |
| RegistryServer.Registry.SendNewTick | gopath/src/griefly-server/client.go:529-534 | the tick is counted and broadcast |
| RegistryServer.Registry.CheckForHashStart | gopath/src/griefly-server/client.go:536-553 | with two clients or more a check is opened and every hash requested |
| RegistryServer.Registry.DumpPlayerMap | gopath/src/griefly-server/client.go:614-631 | a map is requested, or a full client removed |
| RegistryServer.Registry.CheckHashesOne | gopath/src/griefly-server/client.go:571-612 | who reported another hash than the master is no client afterwards, everyone else stays except a master whose inbox is full; without a report of the master nothing changes |
| RegistryServer.Registry.CheckHashes | gopath/src/griefly-server/client.go:555-569 | every due check is made and closed; if the master survives, whoever differs from it in a complete check is gone, and nobody who never differs |
| RegistryServer.Registry.MaybeSendConnCounter | gopath/src/griefly-server/client.go:391-400 | every fifth tick the number of clients is broadcast |
| RegistryServer.Registry.RequestMap | gopath/src/griefly-server/client.go:319-341 | one map request: the joiner is a client with the master's world from here on, or its inbox is closed, or the registry hangs |
| RegistryServer.Registry.InvokeNextTickCallbacks | gopath/src/griefly-server/client.go:406-412 | the postponed map requests are made in order, and forgotten, up to one in which the registry hangs |
| RegistryServer.Registry.HandleNewTick | gopath/src/griefly-server/client.go:521-527 | a tick of the server as the model has it, in every well-formed state |
| RegistryServer.Registry.HandleForcedNextTick | gopath/src/griefly-server/client.go:470-480 | an admin's request makes a tick, anybody else's changes nothing |
| LockstepTheorems.OnlyAdmins | gopath/src/griefly-server/client.go:431-480 | a restart or a forced tick from anyone who is no admin changes nothing |
| LockstepTheorems.AdminsForceTicks | gopath/src/griefly-server/client.go:470-480 | an admin's forced tick does what the timer's does |
| AtmosModel.AtIsIndex | sources/core/atmos/AtmosGrid.h:125-133 | every place in the grid has an index inside the array, and is found again from it |
| AtmosModel.WhereIsPlace | sources/core/atmos/AtmosGrid.h:125-133 | every index is the index of a place in the grid |
| AtmosModel.AtInjective | sources/core/atmos/AtmosGrid.h:125-133 | two places never share an index |
| AtmosModel.GroupSteps | sources/core/atmos/AtmosGrid.cpp:78-92 | inside a group the pointer steps of 1 and 32 lead to the four neighbours |
| AtmosTheorems.VisitCells | sources/core/atmos/AtmosGrid.cpp:13-76 | what a visit leaves at each neighbour and at the centre |
| AtmosTheorems.VisitLevels | sources/core/atmos/AtmosGrid.cpp:13-76 | after a visit all joined neighbours hold the same of each gas and of energy, the centre that much and a remainder smaller than the number of cells, and together what was there before |
| AtmosTheorems.VisitKindles | sources/core/atmos/AtmosGrid.cpp:42-72 | the joined neighbourhood burns exactly if some of it did and it holds plasma and oxygen |
| AtmosTheorems.VisitStops | sources/core/atmos/AtmosGrid.cpp:107-157 | cells behind a blocked edge, solid cells and all others are left as they are, and a solid centre does nothing |
| AtmosTheorems.VisitConserves | sources/core/atmos/AtmosGrid.cpp:25-75 | a visit keeps every gas and the energy of any set of cells that no open edge leaves |
| AtmosTheorems.VisitAllConserves | sources/core/atmos/AtmosGrid.cpp:159-225 | so does any list of visits |
| AtmosTheorems.VisitNonNegative | sources/core/atmos/AtmosGrid.cpp:39-75 | a visit leaves nothing negative |
| AtmosTheorems.FinalMatter | sources/core/atmos/AtmosConstants.h:54-80 | burning keeps nitrogen, plasma+CO2, O2+2·CO2 and energy-4·CO2 |
| AtmosTheorems.FinalIs | sources/core/atmos/AtmosConstants.h:54-120 | the end of a tick: a fifth is lost on space tiles, then a thirty-second of what can burn, but one at least, then temperature and pressure are those of the amounts |
| AtmosTheorems.Divergence | sources/core/atmos/AtmosGrid.cpp:53-75 | from zero flows any visits keep both flows of an edge opposite and a cell's change in gas equal to its four flows |
| AtmosTheorems.SameColourApart | sources/core/atmos/AtmosGrid.cpp:98-101 | two centres of one stage have disjoint neighbourhoods |
| AtmosTheorems.VisitsCommute | sources/core/atmos/AtmosGrid.cpp:103-157 | visits with disjoint neighbourhoods commute |
| AtmosTheorems.AnyOrder | sources/core/atmos/AtmosGrid.cpp:159-225 | blocks of visits that are pairwise apart give the same grid in every order |
| AtmosSchedule.Coverage | sources/core/atmos/AtmosGrid.cpp:159-225 | at every tick a cell off the frame is a centre once, at crossings of group borders twice, on the frame never |
| AtmosSchedule.ScheduleInner | sources/core/atmos/AtmosGrid.cpp:159-225 | all centres are off the frame |
| AtmosSchedule.StageOrderIndependence | sources/core/atmos/AtmosGrid.cpp:165-179 | the cells of a stage may be visited in any order |
| AtmosSchedule.GroupOrderIndependence | sources/core/atmos/AtmosGrid.cpp:159-181 | the groups may be processed in any order |
| AtmosSchedule.TickOrderIndependence | sources/core/atmos/AtmosGrid.cpp:6-247 | a whole tick is the same for any order of the groups and any order of the cells within each stage of each group and each border |
| AtmosSchedule.SealedRoomKeepsMatter | sources/core/atmos/AtmosGrid.cpp:6-247 | a sealed room without space tiles keeps its four conserved totals over any number of ticks, and stays sealed |
| AtmosSchedule.TicksNonNegative | sources/core/atmos/AtmosGrid.cpp:6-247 | no gas and no energy becomes negative in any number of ticks |
| AtmosSchedule.TickDivergence | sources/core/atmos/Atmos.cpp:54-79 | after any ticks, which end with flows zeroed, the next one's flows balance and explain every change |
| AtmosGridInPlace.AtmosGrid.constructor | sources/core/atmos/AtmosGrid.h:80-104 | an empty grid of whole groups |
| AtmosGridInPlace.AtmosGrid.Gather | sources/core/atmos/AtmosGrid.cpp:15-37 | the sums over the centre and its open neighbours |
| AtmosGridInPlace.AtmosGrid.Share | sources/core/atmos/AtmosGrid.cpp:57-67 | one neighbour takes the averages, both flows of the edge are booked |
| AtmosGridInPlace.AtmosGrid.ProcessFiveCells | sources/core/atmos/AtmosGrid.cpp:13-76 | five cells in place are one visit of the model: the open neighbourhood is levelled in every gas and in energy, and burns as a whole or not |
| AtmosGridInPlace.AtmosGrid.ProcessInnerGroupCell | sources/core/atmos/AtmosGrid.cpp:103-129 | the visit of a cell inside a group by pointer steps |
| AtmosGridInPlace.AtmosGrid.ProcessBorderGroupCell | sources/core/atmos/AtmosGrid.cpp:131-157 | the visit of a cell at a group border by coordinates |
| AtmosGridInPlace.AtmosGrid.ProcessGroups | sources/core/atmos/AtmosGrid.cpp:159-181 | the grid after the visits of all groups |
| AtmosGridInPlace.AtmosGrid.ProcessStrips | sources/core/atmos/AtmosGrid.cpp:183-225 | the grid after the visits of all borders of one direction |
| AtmosGridInPlace.AtmosGrid.FinalizeCells | sources/core/atmos/AtmosGrid.cpp:227-247 | every cell vented if it is space, burnt, and with its temperature and pressure |
| AtmosGridInPlace.AtmosGrid.ResetAllFlows | sources/core/atmos/Atmos.cpp:54-79 | every flow is zero, nothing else changed |
| AtmosGridInPlace.AtmosGrid.Process | sources/core/atmos/AtmosGrid.cpp:6-11 | a tick in place is a tick of the model |
| LosCalculator.RayEndsOnTarget | sources/core/LosCalculator.cpp:86-137 | a ray starts at its source and ends exactly on its target, in its source's plane |
| LosCalculator.RayNext | sources/core/LosCalculator.cpp:129-134 | one step of the error accumulator leads to the next floor of the exact line |
| LosCalculator.OnLineIff | sources/core/LosCalculator.cpp:78-201 | the points of a walk are those of the exact line, rounded toward its source |
| LosCalculator.WallsDecide | sources/core/LosCalculator.cpp:86-127 | a corner is seen exactly when no point of the exact line to it is inside a wall, on its edge, or at a corner that walls shut |
| LosCalculator.CornerRule | sources/core/LosCalculator.cpp:88-99 | at a tile corner the code follows the rule of its comments for all walls exactly toward the north-west |
| LosCalculator.OneWayGap | sources/core/LosCalculator.cpp:88-99 | two walls that touch at a corner let light through to the south-east and not back |
| LosCalculator.LookupsInMap | sources/core/LosCalculator.cpp:86-127 | all lookups of a ray from an in-map viewer to an in-map corner are inside the map |
| LosCalculator.Look | sources/core/LosCalculator.cpp:88-127 | whether the ray gets past a point |
| LosCalculator.BresenX | sources/core/LosCalculator.cpp:78-138 | true exactly when the ray passes all its points, which are the floors of the exact line |
| LosCalculator.BresenY | sources/core/LosCalculator.cpp:140-201 | the same along the other axis |
| LosCalculator.RayTrace | sources/core/LosCalculator.cpp:203-216 | true exactly when no point of the exact line to the corner is inside a wall, on its edge, or at a corner that walls shut |
| LosVisibility.ListIsSound | sources/core/LosCalculator.cpp:228-249 | no tile listed twice, all in the map, no index outside the bitmap |
| LosVisibility.FirstCome | sources/core/LosCalculator.cpp:234-249 | exactly which tiles are listed: those that show first for their bitmap cell |
| LosVisibility.ListedIffSeen | sources/core/LosCalculator.cpp:259-307 | a listed tile has a scanned corner that a ray reaches; away from shared cells the converse holds too |
| LosVisibility.WallsHide | sources/core/LosCalculator.cpp:259-307 | a tile with walls in the way to each of its scanned corners is not listed; away from shared cells no other tile is missing |
| LosVisibility.LeftEdgeHidden | sources/core/LosCalculator.cpp:234-241 | tiles with a negative index are never listed |
| LosVisibility.EdgeTileMissed | sources/core/LosCalculator.cpp:266 | a tile with a visible corner that is not listed |
| LosVisibility.OneOfEachCell | sources/core/LosCalculator.cpp:234-249 | of the tiles that share a cell with a seen tile exactly one is listed |
| LosVisibility.FewerWallsShowMore | sources/core/LosCalculator.cpp:268-307 | taking walls away never removes a tile that has its own cell |
| LosVisibility.MarkTilesOfCornerAsVisible | sources/core/LosCalculator.cpp:218-252 | the list and the bitmap after the four tiles of a reached corner |
| LosVisibility.Calculate | sources/core/LosCalculator.cpp:268-307 | the list after the whole scan |
| SerialTheorems.FromLowBytes | sources/core/FastSerializer.h:89-112 | the bytes of an integer give it back up to its width |
| SerialTheorems.InsertLast | sources/core/SaveableOperators.h:72-86 | a key above all others goes to the end of a map |
| SerialTheorems.RoundTrip | sources/core/SaveableOperators.h:35-126 | every nested value is decoded from its encoding, and exactly its bytes are used, whatever follows |
| SerialTheorems.Stable | sources/core/FastSerializer.h:240-380 | later bytes never change a read |
| SerialTheorems.CutShort | sources/core/FastSerializer.h:364-380 | a read of only a part of an encoding aborts |
| SerialTheorems.SelfDelimiting | sources/core/SaveableOperators.h:35-126 | equal streams of one type begin with equal values |
| FastSerializer.PreallocateEndsIff | sources/core/FastSerializer.h:168-174 | doubling ends exactly when the buffer is not empty or nothing is needed |
| FastSerializer.Serializer.constructor | sources/core/FastSerializer.h:54-58 | an empty buffer |
| FastSerializer.Serializer.ResetIndex | sources/core/FastSerializer.h:65-68 | nothing is written any more |
| FastSerializer.Serializer.Preallocate | sources/core/FastSerializer.h:168-174 | there is room, and what was written is still there |
| FastSerializer.Serializer.WriteBool | sources/core/FastSerializer.h:82-88 | the encoding is appended |
| FastSerializer.Serializer.WriteInt | sources/core/FastSerializer.h:89-112 | tag and four bytes are appended |
| FastSerializer.Serializer.WriteInt64 | sources/core/FastSerializer.h:151-165 | tag and eight bytes are appended |
| FastSerializer.Serializer.WriteText | sources/core/FastSerializer.h:114-134 | tag, length and code units are appended |
| FastSerializer.Serializer.WriteBytes | sources/core/FastSerializer.h:135-150 | tag, length and bytes are appended |
| FastSerializer.Serializer.Write | sources/core/SaveableOperators.h:35-113 | the encoding of any value is appended |
| FastSerializer.Deserializer.EnsureType | sources/core/FastSerializer.h:371-380 | the tag is read, or the program aborts |
| FastSerializer.Deserializer.ReadLowBytes | sources/core/FastSerializer.h:273-295 | an unsigned integer is put together from its bytes |
| FastSerializer.Deserializer.ReadInt | sources/core/FastSerializer.h:249-271 | a signed 32-bit integer |
| FastSerializer.Deserializer.ReadString | sources/core/FastSerializer.h:297-324 | a text with its tag |
| FastSerializer.Deserializer.ReadByteArray | sources/core/FastSerializer.h:326-344 | a byte array |
| FastSerializer.Deserializer.Read | sources/core/SaveableOperators.h:43-126 | the value and the cursor that the format gives, or an abort where it aborts |
| WorldTheorems.LoadOne | sources/core/objects/Object.cpp:27-53 | an object in order is loaded as it was, one out of order aborts |
| WorldTheorems.LoadRest | sources/core/WorldLoaderSaver.cpp:54-70 | the loop restores all objects from an id on, or aborts at the first out of order |
| WorldTheorems.LoadRestores | sources/core/WorldLoaderSaver.cpp:27-99 | a save with anything after it loads into the same live objects, counter and globals, exactly when every object with a frequency comes after the globals and not before the processor; otherwise it aborts |
| WorldTheorems.TooEarlyAborts | sources/core/objects/Object.cpp:27-53 | a world, in which object 1 has a frequency and the globals are object 2, whose save aborts the load |
| WorldRuns.FirstBooted | sources/core/CoreImplementation.cpp:468-481 | the first world of a game is in order |
| WorldRuns.OpKeeps | sources/core/ObjectFactory.cpp:109-191 | making, changing, registering, deleting and dropping keep it in order, and the processor's list without duplicates |
| WorldRuns.EverySaveLoads | sources/core/WorldLoaderSaver.cpp:27-74 | whatever a game has done, its save loads into the world it was made from |
| WorldRuns.FreqKeeps | sources/core/objects/Object.cpp:44-53 | who gets a frequency is in the processor's list |
| WorldHash.HashTable | sources/core/ObjectFactory.cpp:202-216 | the hash over all live objects, as the next three rows describe it |
| WorldHash.ChangeMovesHash | sources/core/ObjectFactory.cpp:202-216 | if one object becomes another the hash moves by exactly the difference in id, frequency, members and fires, and stays exactly if that is 0 in 32 bits |
| WorldHash.DeathMovesHash | sources/core/ObjectFactory.cpp:202-216 | an object that is taken out takes its share of the hash with it |
| WorldHash.NothingHashesToZero | sources/core/ObjectFactory.cpp:202-216 | without objects the hash is 0 |
| WorldHash.LoadKeepsHash | sources/core/ObjectFactory.cpp:202-216 | loading keeps the hash exactly when the burning holders count to a multiple of 2^32 |
| WorldHash.BurningChangesHash | sources/core/ObjectFactory.cpp:202-216 | a world with one burning holder has another hash after loading, however members are hashed |
| WorldHash.SaveAgain | sources/core/WorldLoaderSaver.cpp:27-45 | a loaded world saves to the same bytes |
| ObjectFactory.Factory.constructor | sources/core/ObjectFactory.cpp:15-22 | a table of a hundred nulls and the first id |
| ObjectFactory.Factory.CreateImpl | sources/core/ObjectFactory.cpp:109-124 | a new object at the next id, the table grown if needed |
| ObjectFactory.Factory.CreateVoid | sources/core/ObjectFactory.cpp:150-167 | an empty object at a given id, the counter kept above it; unknown types abort |
| ObjectFactory.Factory.SetFreq | sources/core/objects/Object.cpp:44-53 | the frequency is set and the object registered, or there is no processor and the program aborts |
| ObjectFactory.Factory.DeleteLater | sources/core/ObjectFactory.cpp:187-191 | the table forgets the object, which waits for its deletion |
| ObjectFactory.Factory.ProcessDeletion | sources/core/ObjectFactory.cpp:193-200 | what waited is gone, the table is as it was |
| ObjectFactory.Factory.Save | sources/core/WorldLoaderSaver.cpp:27-45 | header, live objects by id, end mark |
| ObjectFactory.Factory.Load | sources/core/WorldLoaderSaver.cpp:47-99 | the table that the bytes describe, or an abort |
| ObjectFactory.Factory.Hash | sources/core/ObjectFactory.cpp:202-216 | the hash of the table |
| SynchronizedRandom.Random.constructor | sources/core/SynchronizedRandom.cpp:5-11 | a freshly seeded generator |
| SynchronizedRandom.Random.Generate | sources/core/SynchronizedRandom.cpp:13-18 | the next number of the stream, counted in 32 bits |
| SynchronizedRandom.Random.SetParams | sources/core/SynchronizedRandom.cpp:20-26 | the stream of that seed after that many draws |
| SynchronizedRandom.Random.InsertParamsIntoGenerator | sources/core/SynchronizedRandom.cpp:38-42 | the generator is where seed and counter say |
| SynchronizedRandom.LoadContinuesStream | sources/core/SynchronizedRandom.cpp:13-42 | a load continues the stream for every engine exactly when fewer than 2^32 numbers were drawn |
| SynchronizedRandom.StreamSplit | sources/core/SynchronizedRandom.cpp:13-18 | a stream goes on where it was left |
| Framing.FramesBack | gopath/src/griefly-server/client_conn.go:89-120 | a written stream means its messages |
| Framing.FramesSplit | sources/client/net/Network2.cpp:217-242 | parsing in two parts is parsing at once |
| Framing.DeliveredIsPrefix | sources/client/net/Network2.cpp:217-242 | what has been delivered is always a beginning of what was sent |
| Framing.ServerReads | gopath/src/griefly-server/client_conn.go:40-87 | the server reads what a client sends, or refuses it for its length |
| Framing.SocketHandler.constructor | sources/client/net/Network2.cpp:210-215 | nothing received, a header expected |
| Framing.SocketHandler.HandleHeader | sources/client/net/Network2.cpp:246-260 | a whole header is parsed, or nothing changes |
| Framing.SocketHandler.HandleBody | sources/client/net/Network2.cpp:262-295 | a whole body is delivered, the first one as the first message, or nothing changes |
| Framing.SocketHandler.HandleNewData | sources/client/net/Network2.cpp:217-242 | exactly the messages that the new bytes complete are delivered; the loop ends and compaction is not seen |
| Framing.ReceiveAll | sources/client/net/Network2.cpp:217-295 | however a stream is cut into chunks, exactly its messages are delivered in order |
| ForceWalk.ProcessForceTick | sources/core/objects/PhysicsEngine.cpp:22-57 | the step and the error of a tick |
| ForceWalk.Movable.constructor | sources/core/objects/movable/Movable.cpp:13-24 | at rest, facing south |
| ForceWalk.Movable.ApplyForce | sources/core/objects/PhysicsEngine.cpp:59-83 | the summed force with its directions and slope; who was at rest is reported to the engine |
| ForceWalk.Movable.ProcessForce | sources/core/objects/movable/Movable.cpp:47-77 | one step with its friction, or a stop |
| ForceWalk.ApplyAligns | sources/core/objects/PhysicsEngine.cpp:67-82 | the forces add up, the directions follow the sum, the main one along its longer axis, and the slope is at most one |
| ForceWalk.WalkEnds | sources/core/objects/movable/Movable.cpp:47-77 | with friction and free way a force (x, y) makes exactly abs(x)/100+abs(y)/100 moves, one a tick, and ends (x/100, y/100) away, whatever the error term was |
| ForceWalk.BlockedStops | sources/core/objects/movable/Movable.cpp:47-77 | a step that fails makes no move and ends the push until the next one; a push without a move left does not try |
| ForceWalk.ErrorBounds | sources/core/objects/PhysicsEngine.cpp:31-39 | without friction the error is m·slope-2048·s and stays in -1024..3071 |
| ForceWalk.RouteFollowsForce | sources/core/objects/PhysicsEngine.cpp:22-83 | the route keeps to the direction of the force within one and a half steps and the slope's rounding |
| Projectiles.ZigzagSums | sources/core/objects/movable/Projectiles.cpp:186-203 | where a zigzag is after each of its steps |
| Projectiles.PatternReaches | sources/core/objects/movable/Projectiles.cpp:77-185 | every list of steps has abs(x)+abs(y) of them and leads to the target |
| Projectiles.PatternStays | sources/core/objects/movable/Projectiles.cpp:77-203 | no part of the way leaves the rectangle to the target or goes back |
| Projectiles.ShotReaches | sources/core/objects/movable/Projectiles.cpp:62-75 | k whole cycles lead k times as far |
| Projectiles.FacesFirstStep | sources/core/objects/movable/items/Gun.cpp:33-82 | the shooter faces the first step exactly when the target is not more above or below than away, or diagonal |
| Projectiles.FacesElsewhere | sources/core/objects/movable/items/Gun.cpp:33-82 | a target five levels up and one step east: the shot goes east, the shooter faces another way |
| Projectiles.Projectile.MakeMovementLoops | sources/core/objects/movable/Projectiles.cpp:186-203 | a zigzag is appended |
| Projectiles.Projectile.MakeMovementPattern | sources/core/objects/movable/Projectiles.cpp:77-185 | the pattern of target and facing is appended |
| Projectiles.Projectile.ProcessMovement | sources/core/objects/movable/Projectiles.cpp:62-75 | one step along the cycle, or none; at the border of the map the step counts and the projectile stays |
| Projectiles.Projectile.Process | sources/core/objects/movable/Projectiles.cpp:19-31 | one step a tick, and a second one at a turn, each displacing exactly when inside the map |
| ObjectProcessor.RunKeeps | sources/core/objects/ObjectProcessor.cpp:10-47 | however objects react, list and lookup set agree and every live object with a frequency is listed |
| ObjectProcessor.RunStops | sources/core/objects/ObjectProcessor.cpp:22-47 | however objects react, a run takes out exactly the first entry that is stale when reached, and stops there; if there is none it takes out none |
| ObjectProcessor.CalledIffReached | sources/core/objects/ObjectProcessor.cpp:31-45 | however objects react, one is called exactly when the run gets past its place and it is due at that moment |
| ObjectProcessor.CalledIff | sources/core/objects/ObjectProcessor.cpp:22-47 | a due object, which those called before it do not touch, is called exactly when no stale entry stands before it; to all others they do anything |
| ObjectProcessor.MissedObject | sources/core/objects/ObjectProcessor.cpp:31-40 | a processor that does not call an object that is due |
| ObjectProcessor.DueOnMultiples | sources/core/objects/ObjectProcessor.cpp:42-45 | an object is due exactly on the multiples of its frequency, one without a frequency never |
| ObjectProcessor.DueOncePerPeriod | sources/core/objects/ObjectProcessor.cpp:42-45 | of as many ticks in a row as its frequency says it is due on exactly one |
| ObjectProcessor.StaleOnesGo | sources/core/objects/ObjectProcessor.cpp:31-40 | as long as reactions leave nobody without a frequency, the stale entries go at least one a run until none is left |
| ProcessorInPlace.ObjectProcessor.Add | sources/core/objects/ObjectProcessor.cpp:10-20 | listed once |
| ProcessorInPlace.ObjectProcessor.SetFreq | sources/core/objects/Object.cpp:44-53 | a frequency registers |
| ProcessorInPlace.ObjectProcessor.RunProcess | sources/core/objects/ObjectProcessor.cpp:22-47 | a run of the model, and whom it called |
| ProcessorInPlace.ObjectProcessor.LoadObjectsPlaces | sources/core/objects/ObjectProcessor.cpp:49-55 | the lookup set is the set of the list |
| PhysicsLists.TickKeeps | sources/core/objects/PhysicsEngine.cpp:85-143 | after a tick the ids strictly increase and every live movable under force is listed or waiting, whatever was pushed meanwhile |
| PhysicsLists.RunKeeps | sources/core/objects/PhysicsEngine.cpp:17-143 | in every run |
| PhysicsLists.EveryoneMovesOnce | sources/core/objects/PhysicsEngine.cpp:117-125 | whatever moving does to others, a tick moves by increasing id, once each, only those under force before it, and of these exactly those still or again under force at their turn |
| PhysicsLists.SparedMove | sources/core/objects/PhysicsEngine.cpp:117-125 | who is not pushed, stopped or killed by the moves before it moves exactly if it was under force before the tick |
| PhysicsLists.PrepareIs | sources/core/objects/PhysicsEngine.cpp:85-115 | before the moves the list is exactly those under force |
| PhysicsInPlace.PhysicsEngine.ApplyForce | sources/core/objects/movable/Movable.cpp:79-97 | who was at rest waits |
| PhysicsInPlace.PhysicsEngine.Clear | sources/core/objects/PhysicsEngine.cpp:128-143 | exactly those still under force stay, in order |
| PhysicsInPlace.PhysicsEngine.AddNew | sources/core/objects/PhysicsEngine.cpp:90-115 | those waiting join once, sorted |
| PhysicsInPlace.PhysicsEngine.Move | sources/core/objects/PhysicsEngine.cpp:117-125 | the moves of the model |
| PhysicsInPlace.PhysicsEngine.ProcessPhysics | sources/core/objects/PhysicsEngine.cpp:85-126 | a tick of the model |
| TileCache.LowestIsLeast | sources/core/objects/Tile.cpp:361-384 | recomputing finds the least of FULL and all levels |
| TileCache.LeastIsOne | sources/core/objects/Tile.cpp:361-384 | the cache is determined by what the tile holds |
| TileCache.FlagsTell | sources/core/objects/Tile.cpp:443-477 | each flag is set exactly for its fact |
| TileCache.SetPassableCachedIff | sources/core/objects/MaterialObject.h:40-66 | a member takes a new level: all caches are right afterwards exactly when every tile that holds it and is not its owner remembers the new level already, or a lower one that it does not owe to this object alone |
| TileCache.OpCachedIff | sources/core/objects/Tile.cpp:283-387 | wherever objects are put, adding, removing and another turf keep all caches right; only a member's new level can spoil one, exactly then |
| TileCache.RunCachedIff | sources/core/objects/Tile.cpp:283-477 | in every run at all, also with objects on several tiles, the caches are right all along exactly when they are at first and every change of a level is noticed |
| TileCache.OpKeeps | sources/core/objects/Tile.cpp:283-329 | where objects come to a tile from no tile, every operation keeps every tile's cache right and every object on one tile |
| TileCache.RunKeeps | sources/core/objects/Tile.cpp:283-477 | in every run of such operations the five levels are the least of what a tile holds and its flags follow from them |
| TileCache.SetPassableKeeps | sources/core/objects/MaterialObject.h:40-66 | with every object on one tile a member's new level reaches every cache that it concerns |
| TileCache.OwnLevelAside | sources/core/objects/movable/Movable.cpp:108-129 | an object whose own level is FULL does not count on its tile |
| TileCache.PutOnTwo | sources/core/objects/Tile.cpp:283-302 | how an object comes to be on two tiles |
| TileCache.TwoTilesGoStale | sources/core/objects/Tile.cpp:283-302 | an object on two tiles leaves one of them stale |
| TilesInPlace.Board.UpdateAtmosPassable | sources/core/objects/Tile.cpp:443-477 | the flags of the levels, the turf and the content |
| TilesInPlace.Board.UpdatePassable | sources/core/objects/Tile.cpp:361-387 | levels and flags recomputed |
| TilesInPlace.Board.AddObject | sources/core/objects/Tile.cpp:283-302 | the object behind the others, with this tile as owner, levels lowered by its own |
| TilesInPlace.Board.RemoveObject | sources/core/objects/Tile.cpp:303-329 | the object or the turf is off, or it was not there |
| TilesInPlace.Board.SetTurf | sources/core/objects/Tile.h:46-54 | another turf, with this tile as owner |
| TilesInPlace.Board.SetPassable | sources/core/objects/MaterialObject.h:40-66 | one level changes and the owner looks again |
| TilesInPlace.Board.MainMove | sources/core/objects/movable/Movable.cpp:149-162 | the object is on the new tile alone, and all caches are right |

## Left out

- Wall-clock time, the ticker, sockets, HTTP, JSON, authentication, guest names, game versions, statistics and dump files: input and output; an expired deadline and a tick are events of the model, message bodies are opaque.
- The Go scheduler and blocking: the registry is one event loop, and a full inbox is a choice of the environment, which covers every capacity.
- RegistryServer.Registry.SendMaster: a loop that never ends is the state `hung`, after which no event is handled; a method cannot be left running.
- LockstepTheorems.Lockstep: takes the snapshot a master uploads as exact; what a save loses (fire) is in `WorldHash`.
- C++ integer overflow of gases, energy, forces and buffer indexes: mathematical integers. Widths are modelled where a format or a hash depends on them.
- FastSerializer.Deserializer.Read: aborts on negative lengths, for which the C++ is undefined and which no writer produces; 64-bit pointers are assumed for int64.
- Bitsets: written as an int32, like enums.
- ObjectFactory.Factory.Load: only into a new factory; clearing a table that holds objects is not modelled. What CreateImpl does with an owner and with hearers is part of other operations.
- WorldTheorems.LoadRestores: Save and Load of a class are taken to list the same members in the same order, and LoadGrid is not modelled.
- The engine behind the random numbers and the hash of a member are uninterpreted functions.
- Framing.SocketHandler.HandleNewData: lengths below 2^31, as the server writes them; with a negative length the C++ parser does not advance.
- ForceWalk.Movable.ProcessForce: whether a move succeeds, and friction, are arguments; what Bump does to other objects is an effect of the physics lists.
- PhysicsInPlace.PhysicsEngine.AddNew: the library's sort is a function that is proved to sort.
- TilesInPlace.Board.SetTurf: a turf changing its own atmosphere state later does not update the flags, in the code as in the model.
- Pipes, doors, mobs, chat, sprites, the map editor, the launcher and the code generators: concrete game rules and user interface, which would add only easy members.
