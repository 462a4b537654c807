# FuzzTest, modelled in Dafny

Copycat's `FuzzTest` is a chaos harness for the Copycat Raft library. Each iteration:

- resets the harness;
- starts 3 to 6 servers on consecutive local ports, each running `FuzzStateMachine`, a
  replicated key/value map;
- starts 1 to 5 clients that submit random `Put`, `Get` and `Remove` operations;
- arms timers that shut servers down and restart them.

This project models the three parts of that file that are sequential logic, and proves what
each promises.

- **`FuzzStateMachine`** (module `StateMachine`) is a class over a map field from key to the
  `Put` commit that last wrote it.
  - Each commit is an object with a `closed` flag, so the rule each handler follows for
    releasing commits can be stated.
  - An exception thrown by the library's `operation()` accessor is a parameter that says where
    it is thrown: on the incoming commit, or on the stored one. Each handler's `try`/`finally`
    paths are modelled branch by branch.
- **The fault-injection scheduler and the cluster bookkeeping** (module `Harness`) form the
  class `FuzzTest`, with the source's fields: `port`, `members`, `clients`, `servers`,
  `shutdownTimers` and `restartTimers`.
  - The library runtime is the environment. Whatever the harness has asked of it and not yet
    seen finish sits in `pending`, keyed by a handle: armed timers, shutdowns in progress and
    bootstraps in progress.
  - Each callback of the source is an event method. It is called with the handle of the job
    it completes, and every random draw it makes is a parameter.
  - This lets the model reach the states the source reaches:
    - a new round starting while a shutdown is still draining;
    - a restart timer replaced in `restartTimers` while still armed;
    - the server list growing by one on every restart.
- **Member allocation, storage tuning and the random ranges** (modules `Cluster` and
  `Operations`) are pure functions from integer draws to values, with range and onto lemmas.

Module `Scenarios` drives concrete event sequences through the harness and proves what
happens in each:

- a restart grows the server list;
- a first round that draws zero (or any round drawn with no shutdown, restart or bootstrap in
  flight) ends fault injection for that iteration;
- an overlapping round leaves two restart timers armed for one member, and the older one,
  firing, erases the newer one's entry, so a second server is later built on the same member
  and directory (see "## Findings");
- once restarts have grown the server list, a round can shut down every replica (see
  "## Findings").

## Model

| member | source | states |
|---|---|---|
| Cluster.MemberAt | test/src/main/java/io/atomix/copycat/test/FuzzTest.java:249-251 | the member made when the port counter reaches p: its server address is localhost:p and its client address is on the same host, 1000 ports higher |
| Cluster.MembersFrom | test/src/main/java/io/atomix/copycat/test/FuzzTest.java:259-261 | the n members `createServers` adds, starting from port counter `base`: member j is Active on port base+1+j |
| Cluster.ServerAddresses | test/src/main/java/io/atomix/copycat/test/FuzzTest.java:181 | the bootstrap list has one entry per member, in member order, and entry j is member j's server address |
| Cluster.ClientAddresses | test/src/main/java/io/atomix/copycat/test/FuzzTest.java:313 | the connect list has one entry per member, in member order, and entry j is member j's client address |
| Cluster.FreshRunAddresses | test/src/main/java/io/atomix/copycat/test/FuzzTest.java:249-266 | after a reset, n servers get server ports 5001..5000+n and client ports exactly 1000 higher; no server address equals a client address, and no address of either kind repeats (for n <= 1000) |
| Cluster.Storage | test/src/main/java/io/atomix/copycat/test/FuzzTest.java:282-293 | every storage configuration lies within the builder's bounds (disk level, segment size 8K..24K-1, entries 100..1099, 1..4 threads, buffer 1..100, minor interval 15..44 s, major interval 60..119 s); the directory is named after the member's own address; flush-on-commit holds iff its draw is 1 |
| Cluster.StorageOnto | test/src/main/java/io/atomix/copycat/test/FuzzTest.java:285-292 | those bounds are exact: every configuration within them comes from some in-range draws |
| Cluster.ServerCount | test/src/main/java/io/atomix/copycat/test/FuzzTest.java:128 | an iteration has 3 to 6 servers |
| Cluster.ServerCountOnto | test/src/main/java/io/atomix/copycat/test/FuzzTest.java:128 | each count from 3 to 6 comes from exactly one draw |
| Cluster.ClientCount | test/src/main/java/io/atomix/copycat/test/FuzzTest.java:130 | an iteration has 1 to 5 clients |
| Cluster.ClientCountOnto | test/src/main/java/io/atomix/copycat/test/FuzzTest.java:130 | each count from 1 to 5 comes from exactly one draw |
| Cluster.TimerDelay | test/src/main/java/io/atomix/copycat/test/FuzzTest.java:171-176 | every shutdown and restart delay is 10 to 129 seconds |
| Cluster.TimerDelayOnto | test/src/main/java/io/atomix/copycat/test/FuzzTest.java:171-176 | each delay from 10 to 129 seconds comes from exactly one draw |
| Operations.Compaction | test/src/main/java/io/atomix/copycat/test/FuzzTest.java:407-438 | a command's compaction mode is QUORUM iff it is a Put, and TOMBSTONE iff it is a Remove |
| Operations.Ordinal | test/src/main/java/io/atomix/copycat/test/FuzzTest.java:111-113 | a level's ordinal is the position where `values()` lists it |
| Operations.RandomConsistency | test/src/main/java/io/atomix/copycat/test/FuzzTest.java:111-113 | the drawn level's ordinal is the draw, and no other draw gives the same level, so the three levels are equally likely |
| Operations.RandomConsistencyOnto | test/src/main/java/io/atomix/copycat/test/FuzzTest.java:111-113 | every level is drawn by exactly one draw, its ordinal |
| Operations.Workload | test/src/main/java/io/atomix/copycat/test/FuzzTest.java:134-146 | a tick submits something iff the type draw is 0, 1 or 2: a Put carrying the fresh value, a Get at the level the consistency draw gives, or a Remove, in that order, each on the drawn key of the 1024-key pool; draws 3 and 4 submit nothing |
| StateMachine.FuzzStateMachine.constructor | test/src/main/java/io/atomix/copycat/test/FuzzTest.java:323 | a new state machine starts with an empty map |
| StateMachine.FuzzStateMachine.Snapshot | test/src/main/java/io/atomix/copycat/test/FuzzTest.java:345-348 | a snapshot appends exactly one long, 10, to the writer |
| StateMachine.FuzzStateMachine.Install | test/src/main/java/io/atomix/copycat/test/FuzzTest.java:350-353 | install consumes exactly one long and leaves the map alone; it throws iff the reader is exhausted |
| StateMachine.FuzzStateMachine.Put | test/src/main/java/io/atomix/copycat/test/FuzzTest.java:355-370 | put returns the superseded value, or null when the key was new. The key now maps to the incoming commit, all other keys are unchanged, and the superseded commit is closed. The incoming commit stays open unless an exception escapes. On an exception the incoming commit is closed and the exception is rethrown. An exception on the incoming commit before anything is stored leaves every stored commit's closed flag as it was. An exception while reading the stored value still leaves the closed incoming commit in the map, so the map then holds a released commit, and only then |
| StateMachine.FuzzStateMachine.Store | test/src/main/java/io/atomix/copycat/test/FuzzTest.java:357 | `map.put` makes the key map to the incoming commit and returns the commit it replaced, if any; every other key keeps its commit, and the replaced commit is no longer stored under any key |
| StateMachine.FuzzStateMachine.Get | test/src/main/java/io/atomix/copycat/test/FuzzTest.java:372-379 | get returns the stored value, or null when there is none; it never changes the map or any stored commit, and always closes its own commit |
| StateMachine.FuzzStateMachine.Remove | test/src/main/java/io/atomix/copycat/test/FuzzTest.java:381-395 | remove returns the removed value, or null. The key is then absent and all other keys are unchanged. The removed Put commit and the Remove commit are both closed, whatever is thrown. An exception on the Remove commit before the map is touched leaves every stored commit's closed flag as it was |
| StateMachine.OverwriteThenRead | test/src/main/java/io/atomix/copycat/test/FuzzTest.java:355-379 | writing a key twice returns null and then the first value, and a read sees the second value |
| StateMachine.RemoveThenRead | test/src/main/java/io/atomix/copycat/test/FuzzTest.java:372-395 | removing an absent key returns null, removing a written key returns its value, and a read afterwards sees null |
| StateMachine.SnapshotRoundTrip | test/src/main/java/io/atomix/copycat/test/FuzzTest.java:345-353 | what one state machine's snapshot writes installs into another without error |
| Harness.RoundTimers | test/src/main/java/io/atomix/copycat/test/FuzzTest.java:160-163 | one round's timer map holds exactly indices 0..k-1, each under its own handle |
| Harness.RoundJobs | test/src/main/java/io/atomix/copycat/test/FuzzTest.java:160-171 | one round arms exactly k shutdown timers, for servers 0..k-1, each with the delay its draw gives |
| Harness.RoundTimersExactly | test/src/main/java/io/atomix/copycat/test/FuzzTest.java:160-163 | a timer map holding exactly indices 0..k-1 under handles base+i is the round's map |
| Harness.RoundJobsExactly | test/src/main/java/io/atomix/copycat/test/FuzzTest.java:160-171 | earlier jobs plus exactly the round's new shutdown timers, under fresh handles, equal the earlier jobs joined with the round |
| Harness.RoundMembers | test/src/main/java/io/atomix/copycat/test/FuzzTest.java:160-173 | the members a round of k shutdowns stops are exactly the members of the servers in slots 0..k-1 |
| Harness.CorrectedRoundSparesMembers | test/src/main/java/io/atomix/copycat/test/FuzzTest.java:160 | with the round size drawn from the replica count, and slot j holding a server of member j, no member from slot k on is stopped, and the members so spared number at least two |
| Harness.FuzzTest.constructor | test/src/main/java/io/atomix/copycat/test/FuzzTest.java:73-79 | a new harness has port 5000, no members, clients or servers, and no timers |
| Harness.FuzzTest.NextMember | test/src/main/java/io/atomix/copycat/test/FuzzTest.java:249-251 | the port counter is advanced by one first, and the member is made on the new port; nothing else changes |
| Harness.FuzzTest.CreateServer | test/src/main/java/io/atomix/copycat/test/FuzzTest.java:278-300 | the server is a new instance on the given member, with storage from the draws, and it is appended to `servers` whoever called |
| Harness.FuzzTest.CreateServers | test/src/main/java/io/atomix/copycat/test/FuzzTest.java:256-273 | n Active members on the next n ports are appended; then one new server for each of the first n members of the list is appended to `servers` and returned in order |
| Harness.FuzzTest.CreateClient | test/src/main/java/io/atomix/copycat/test/FuzzTest.java:305-317 | the client is asked to connect to every member's client address, and it is appended to `clients` |
| Harness.FuzzTest.CreateClients | test/src/main/java/io/atomix/copycat/test/FuzzTest.java:130-132 | n new clients are appended, each connected to every member's client address |
| Harness.FuzzTest.ScheduleRestart | test/src/main/java/io/atomix/copycat/test/FuzzTest.java:170-171 | one shutdown timer is armed for server i with an in-range delay, and it is recorded under i in `shutdownTimers` |
| Harness.FuzzTest.ScheduleRestarts | test/src/main/java/io/atomix/copycat/test/FuzzTest.java:158-165 | nothing is armed unless both timer maps are empty. Otherwise, with k below the server count minus one, the new timers are exactly the round's k shutdown timers, for indices 0..k-1 |
| Harness.FuzzTest.ArmRound | test/src/main/java/io/atomix/copycat/test/FuzzTest.java:160-163 | the loop arms exactly the round's timers and keeps every earlier pending job |
| Harness.FuzzTest.ShutdownFires | test/src/main/java/io/atomix/copycat/test/FuzzTest.java:171-175 | a firing shutdown timer removes its index from `shutdownTimers`, then shuts down the server now in slot i; no restart timer is armed yet, and restart timers stay recorded |
| Harness.FuzzTest.ShutdownCompletes | test/src/main/java/io/atomix/copycat/test/FuzzTest.java:175-176 | when a shutdown completes, with or without an error, a restart timer for the same index and server is armed; it replaces any handle under that index in `restartTimers` without cancelling it, so it keeps every armed restart timer recorded under its index only when the index had none recorded |
| Harness.FuzzTest.ShutdownCompletesCancelling | test/src/main/java/io/atomix/copycat/test/FuzzTest.java:175-176 | line 176 as evidently intended: the restart timer recorded for the index, if any, is cancelled (it leaves the pending jobs and joins the cancelled handles) before the new one is armed and recorded, so every armed restart timer stays the one recorded under its index |
| Harness.FuzzTest.CancelRestartTimer | test/src/main/java/io/atomix/copycat/test/FuzzTest.java:176 | the restart timer recorded for an index, if any, is cancelled and its entry removed; nothing else changes, and restart timers stay recorded |
| Harness.FuzzTest.OneRestartTimerPerIndex | test/src/main/java/io/atomix/copycat/test/FuzzTest.java:176-177 | while every armed restart timer is the one recorded under its index, an index has at most one armed restart timer, and empty timer maps mean no timer of either kind is armed |
| Harness.FuzzTest.RestartFires | test/src/main/java/io/atomix/copycat/test/FuzzTest.java:176-181 | a firing restart timer removes its index from `restartTimers`. A new server is built on the stopped server's own member, so the addresses and the storage directory are unchanged. That server is appended to `servers` and also put in slot i, and it bootstraps against every member's server address. While every armed restart timer is the one recorded under its index, the entry it removes is its own, and this stays so |
| Harness.FuzzTest.BootstrapCompletes | test/src/main/java/io/atomix/copycat/test/FuzzTest.java:181-183 | when a bootstrap completes, with or without an error, the next round is tried, under the rule of `ScheduleRestarts`; restart timers stay recorded |
| Harness.FuzzTest.Reset | test/src/main/java/io/atomix/copycat/test/FuzzTest.java:192-241 | every timer recorded in either map is cancelled and both maps are left empty; the port is back at 5000 and members, clients and servers are empty; nothing is left pending, so restart timers are recorded |
| Harness.FuzzTest.SetUp | test/src/main/java/io/atomix/copycat/test/FuzzTest.java:125-148 | after reset, n servers and m clients: members on ports 5001..5000+n, server j on member j with storage from its draws, and every client connected to every member's client address |
| Harness.FuzzTest.RunFuzzTest | test/src/main/java/io/atomix/copycat/test/FuzzTest.java:125-150 | an iteration ends its set-up with those servers and clients, and with exactly the first round's shutdown timers pending, so restart timers are recorded |
| Scenarios.Cycle | test/src/main/java/io/atomix/copycat/test/FuzzTest.java:171-181 | a server's full cycle clears its index from both maps. The three steps are its shutdown timer firing, the shutdown completing and the restart timer firing. The stopped server's slot gets a new server on the same member, and the list grows by one. Only that server's bootstrap is left pending, against the server addresses of the unchanged member list. Port, clients and cancelled timers are unchanged, and exactly one object is created |
| Scenarios.RestartGrowsServerList | test/src/main/java/io/atomix/copycat/test/FuzzTest.java:177-183 | with three servers, one restart gives a new instance on the same member and directory, a list of four whose last element repeats slot 0, and a next round that shuts down servers 0 and 1, which three servers never allow |
| Scenarios.NextRound | test/src/main/java/io/atomix/copycat/test/FuzzTest.java:181-183 | with four servers and no timers left, the bootstrap completion arms a round on exactly servers 0 and 1 |
| Scenarios.ZeroRoundStopsSchedule | test/src/main/java/io/atomix/copycat/test/FuzzTest.java:158-165 | a first round that draws zero leaves nothing pending, so no server is ever shut down in that iteration |
| Scenarios.RoundOverlapsDrainingShutdown | test/src/main/java/io/atomix/copycat/test/FuzzTest.java:171-176 | a second round can start while server 1's shutdown is draining, and it shuts server 1 down again; two restart timers for the same server are then armed, and `restartTimers` records only the later one |
| Scenarios.SecondRound | test/src/main/java/io/atomix/copycat/test/FuzzTest.java:175-183 | the second round arms a new timer for server 1 while server 1's first shutdown is still draining, and that shutdown then arms its restart timer (handle 8), recorded under index 1 |
| Scenarios.SecondRoundArmed | test/src/main/java/io/atomix/copycat/test/FuzzTest.java:158-171 | server 0's bootstrap completes with both maps empty, so a round on servers 0 and 1 is armed (handles 6 and 7) while server 1's shutdown is still in flight |
| Scenarios.StaleRestartTimerOrphansNewer | test/src/main/java/io/atomix/copycat/test/FuzzTest.java:171-181 | after the overlap above, the first restart timer fires and erases the second one's entry; once server 0's timer fires too, both maps are empty while the second restart timer is still armed, and when it fires a second server is built on the same member and storage directory, both servers staying in the list |
| Scenarios.StaleTimerEmptiesMaps | test/src/main/java/io/atomix/copycat/test/FuzzTest.java:171-180 | restart timer 8 fires and shutdown timer 6 fires: both maps are empty, restart timer 10 is still armed, and the restarted server sits in slot 1 and at the end of the list |
| Scenarios.OrphanFires | test/src/main/java/io/atomix/copycat/test/FuzzTest.java:177-180 | the orphaned restart timer builds a second server on the same member and directory, with a different serial, and both are in the server list |
| Scenarios.CancellingKeepsOneRestartTimer | test/src/main/java/io/atomix/copycat/test/FuzzTest.java:175-177 | the same events with line 176 as intended: restart timer 8 is no longer armed, `restartTimers` records 10, and 10 is the only restart timer armed for slot 1 |
| Scenarios.ShutDownAgainCancelling | test/src/main/java/io/atomix/copycat/test/FuzzTest.java:171-176 | server 1's second shutdown, completed with cancelling, cancels restart timer 8 and records 10 |
| Scenarios.RoundCoversEveryMember | test/src/main/java/io/atomix/copycat/test/FuzzTest.java:160-180 | with three replicas, after slot 0 is restarted and then slots 0 and 1, the list holds six servers. The next round draws three and arms slots 0, 1 and 2, whose servers belong to all three members, so every replica is scheduled to go down |
| Scenarios.SlotZeroRestarted | test/src/main/java/io/atomix/copycat/test/FuzzTest.java:171-181 | three replicas after slot 0's first cycle: four servers, and slot j still holds a server of member j |
| Scenarios.RoundOnSlotsZeroAndOne | test/src/main/java/io/atomix/copycat/test/FuzzTest.java:181-183 | the completed bootstrap arms a round on exactly slots 0 and 1 |
| Scenarios.BothSlotsRestarted | test/src/main/java/io/atomix/copycat/test/FuzzTest.java:171-181 | both slots cycle, the list reaches six servers, and slot j still holds a server of member j |
| Scenarios.EverySlotOfAMemberArmed | test/src/main/java/io/atomix/copycat/test/FuzzTest.java:158-165 | with six servers and no timers left, a round of three arms exactly slots 0, 1 and 2 |
| Scenarios.ShutDownAgain | test/src/main/java/io/atomix/copycat/test/FuzzTest.java:171-176 | server 1's second shutdown arms a second restart timer (handle 10) and leaves the first one pending; `restartTimers` now records only 10, and server 0's timer 6 is still armed |

## Findings

| source | as written | input that shows it | evidently intended | confidence | as-written member | corrected member |
|---|---|---|---|---|---|---|
| test/src/main/java/io/atomix/copycat/test/FuzzTest.java:160 | the round size is drawn from `servers.size() - 1`, but every restart appends a server (line 298) on top of setting slot i (line 180), so the list outgrows the replica count | 3 replicas; slot 0 restarted, then a round on slots 0 and 1 with both restarted: 6 servers, so the next draw may be 3, which arms slots 0, 1 and 2, one server of each replica | at most N-1 of N replicas shut down at once: the round size drawn from the replica count, `members.size() - 1` | high, not executed | Scenarios.RoundCoversEveryMember | Harness.CorrectedRoundSparesMembers |
| test/src/main/java/io/atomix/copycat/test/FuzzTest.java:176-177 | a completed shutdown puts a new restart timer in `restartTimers` without cancelling the one already there, and a firing restart timer removes whatever entry its index has | 4 servers, a round on slots 0 and 1; slot 0 cycles, slot 1's shutdown completes during the next round on slots 0 and 1 (restart timer 8), and slot 1 is shut down again (restart timer 10). Timer 8 fires and erases 10's entry; timer 6 fires, so both maps are empty while 10 is armed; 10 then builds a second server on member 1 with the same storage directory | the replaced restart timer cancelled, so every armed restart timer is the one recorded under its index and a firing timer removes only its own entry | high, not executed | Scenarios.StaleRestartTimerOrphansNewer | Harness.FuzzTest.ShutdownCompletesCancelling |

## Left out

- Library calls have no model beyond their completions. These are building servers and
  clients, `bootstrap`, `connect`, `submit`, `shutdown`, `close` and the local transport and
  registry. Each completion is an event the environment delivers.
- Thread contexts, `Scheduled` timers, concurrent maps, futures, latch waits with timeouts and
  the 15-minute sleep are not modelled. One event at a time stands in for all of them.
- The client's periodic task is not modelled as a timer. `Operations.Workload` models the
  choice one tick makes.
- The compaction threshold (`Math.random()`) is a floating-point draw and is not modelled.
  The `Math.random() * 5` type choice is an integer draw in [0, 5) instead.
- UUID keys and values, logging and the serializer whitelist calls are not modelled. The key
  pool is a parameter of 1024 strings.
- Deleting the log directory is file-system I/O and is not modelled.
- The storage directory's name goes through `Address.hashCode()`. It is recorded as the
  member's address instead.
- `TestMember` is modelled only by its type and two addresses. Its methods that return null
  and `id()` are not modelled.
- The session listener callbacks of `FuzzStateMachine` do nothing and are not modelled.
- The outer loop of `run` and `main` is not modelled. It stops at the first exception, and
  nothing else happens there.
- `createServers` also bootstraps each new server and waits on a latch for all of them. These
  bootstraps schedule nothing when they complete, so they are not pending jobs.
- Harness.FuzzTest.Reset drops every pending job, not only the timers it cancels. That
  includes shutdowns and bootstraps still in flight, and restart timers replaced in
  `restartTimers`. Only the timer bodies run on the first client's thread context, which
  reset closes. The completion callbacks at lines 175 and 181 run on the library's shutdown
  and bootstrap futures, so they can run while reset is in progress. If one runs after the
  maps are cleared, it re-arms a timer: line 176 fills `restartTimers`, or lines 182, 160 and
  171 fill `shutdownTimers`. That entry survives the reset into the iteration it starts. That
  iteration's first round then arms nothing (line 159), so it runs without faults. The model assumes
  no completion arrives during reset, so it does not show that fault-free iteration.
- Harness.CorrectedRoundSparesMembers is proved for one round, given that slot j holds a
  server of member j. The model does not prove that the slots keep this across every event
  sequence. The scheduler itself keeps the bound the source has, drawn from the server list.
- Harness.FuzzTest.ShutdownCompletesCancelling stands beside `ShutdownCompletes`, which the
  scenarios keep using to follow the source; only `Scenarios.CancellingKeepsOneRestartTimer`
  replays the overlap with it. The corrected firing keeps the source's `remove`, since under
  the recorded-timers invariant the entry it removes is its own (proved on `RestartFires`).
- StateMachine.FuzzStateMachine.Put requires that the incoming commit is not already stored.
  The log hands each entry to the state machine once.
- StateMachine.Commit.Close never throws. `close()` of a released commit, or one that fails,
  is library behaviour.
- A server's identity is a serial number. Each `new` of a Java server or client takes the
  next value of the `created` counter.
