/**
 * Concrete event sequences driven through the harness, showing what the scheduler does as
 * written: the server list grows with every restart, a first round that draws zero (or any
 * round drawn with no shutdown, restart or bootstrap in flight) stops the fault schedule, and a
 * round can start while a shutdown is still draining.
 */
module Scenarios {
  import opened Cluster
  import opened Harness

  /** Storage draws for n servers, all at the bottom of their ranges. */
  function LowDraws(n: nat): (ds: seq<StorageDraws>)
    ensures |ds| == n && forall j | 0 <= j < n :: StorageDrawsInRange(ds[j])
  {
    seq(n, _ => StorageDraws(0, 0, 0, 0, 0, 0, 0))
  }

  /**
   * One server's whole cycle, three events in a row: its shutdown timer fires, the shutdown
   * completes, and the restart timer that completion armed fires.
   */
  method Cycle(t: FuzzTest, h: nat, delayDraw: int, d: StorageDraws) returns (stopped: Server, restarted: Server, boot: nat)
    requires t.Valid() && h in t.pending && t.pending[h].ShutdownTimer?
    requires 0 <= delayDraw < 120 && StorageDrawsInRange(d)
    modifies t
    ensures t.Valid()
    ensures var i := old(t.pending[h].index);
      && stopped == old(t.servers[i])
      && restarted == Server(old(t.created), stopped.member, Storage(stopped.member, d))
      && t.servers == (old(t.servers) + [restarted])[i := restarted]
      && t.shutdownTimers == old(t.shutdownTimers) - {i}
      && t.restartTimers == old(t.restartTimers) - {i}
      && boot == old(t.nextHandle) + 2
      && t.pending == (old(t.pending) - {h})[boot := Bootstrapping(restarted, ServerAddresses(old(t.members)))]
    ensures t.nextHandle == old(t.nextHandle) + 3 && t.created == old(t.created) + 1
    ensures t.members == old(t.members) && t.port == old(t.port) && t.clients == old(t.clients)
    ensures t.cancelled == old(t.cancelled)
  {
    var i := t.pending[h].index;
    stopped := t.servers[i];
    t.ShutdownFires(h);
    t.ShutdownCompletes(t.nextHandle - 1, delayDraw);
    boot := t.nextHandle;
    restarted := t.RestartFires(t.nextHandle - 1, d);
  }

  /**
   * Three servers, one shut down and restarted: slot 0 gets a new server on the same member,
   * the list now holds four servers with the last one repeating slot 0, and the next round may
   * shut down two servers, which three servers never allowed.
   */
  method RestartGrowsServerList() returns (stopped: Server, restarted: Server, servers: seq<Server>, nextRound: set<nat>)
    ensures restarted.member == stopped.member && restarted.serial != stopped.serial
    ensures restarted.storage.directoryOf == stopped.storage.directoryOf
    ensures |servers| == 4 && servers[0] == servers[3] == restarted
    ensures nextRound == {0, 1}
  {
    var t := ThreeServersOneTimer();
    assert t.servers[0].serial < t.created;
    var boot;
    stopped, restarted, boot := Cycle(t, 0, 0, StorageDraws(0, 0, 0, 0, 0, 0, 0));
    servers := t.servers;
    nextRound := NextRound(t, boot);
  }

  /** Once the restarted server of slot 0 has bootstrapped, a round on two servers starts. */
  method NextRound(t: FuzzTest, boot: nat) returns (nextRound: set<nat>)
    requires t.Valid() && t.TimersIdle() && |t.servers| == 4
    requires boot in t.pending && t.pending[boot].Bootstrapping?
    modifies t
    ensures nextRound == t.shutdownTimers.Keys == {0, 1}
  {
    t.BootstrapCompletes(boot, 2, [0, 0]);
    assert forall i: nat :: i in t.shutdownTimers <==> i < 2;
    nextRound := t.shutdownTimers.Keys;
    assert nextRound == {0, 1} by {
      assert 0 in nextRound && 1 in nextRound;
    }
  }

  /** A fresh iteration with three servers whose first round arms one timer, for server 0. */
  method ThreeServersOneTimer() returns (t: FuzzTest)
    ensures fresh(t) && t.Valid() && |t.servers| == 3 && t.nextHandle == 1
    ensures t.servers[0].storage.directoryOf == t.servers[0].member.Primary()
    ensures |t.members| == 3 && SlotsKeepMembers(t.servers, t.members) && DistinctMembers(t.members)
    ensures t.shutdownTimers == map[0 := 0] && t.restartTimers == map[]
    ensures 0 in t.pending && t.pending[0].ShutdownTimer? && t.pending[0].index == 0
  {
    t := new FuzzTest();
    t.RunFuzzTest(0, LowDraws(3), 0, 1, [0]);
    assert t.pending[0] == ShutdownTimer(0, TimerDelay(0));
    assert forall i: nat :: i in t.shutdownTimers <==> i < 1;
    assert t.shutdownTimers == map[0 := 0];
  }

  /**
   * A first round that draws zero arms nothing; since only a restarted server's bootstrap
   * schedules the next round, nothing is pending and no fault is ever injected in this iteration.
   */
  method ZeroRoundStopsSchedule(serverDraw: int) returns (pendingJobs: nat)
    requires 0 <= serverDraw < 4
    ensures pendingJobs == 0
  {
    var t := new FuzzTest();
    t.RunFuzzTest(serverDraw, LowDraws(ServerCount(serverDraw)), 0, 0, []);
    pendingJobs := |t.pending|;
  }

  /**
   * Four servers, a round on servers 0 and 1. Server 0 goes through its whole cycle while
   * server 1's shutdown is still draining, so both timer maps are empty when server 0's
   * bootstrap completes and a second round starts on servers 0 and 1. Server 1 is then shut
   * down again, and its second restart timer replaces the first in `restartTimers` without
   * cancelling it: two restart timers for the same member are armed at once.
   */
  method RoundOverlapsDrainingShutdown() returns (first: Job, second: Job, recorded: nat)
    ensures first.RestartTimer? && second.RestartTimer?
    ensures first.index == second.index == 1 && first.server == second.server
    ensures recorded == 10
  {
    var t := new FuzzTest();
    t.RunFuzzTest(1, LowDraws(4), 0, 2, [0, 0]);
    FirstRoundHalfDone(t);
    DrainedSlotShutDownAgain(t, 4);
    first := t.pending[8];
    second := t.pending[10];
    recorded := t.restartTimers[1];
  }

  /**
   * Continuing the scenario above: the first restart timer (8) fires and removes index 1 from
   * `restartTimers`, which erases the entry of the second timer (10). When server 0's second
   * shutdown timer (6) fires, both maps are empty while timer 10 is still armed, so a new round
   * may start; and when timer 10 fires, a second server is built on member 1, on the same
   * storage directory as the first, and both stay in the server list.
   */
  method StaleRestartTimerOrphansNewer() returns (idleWhileArmed: bool, first: Server, second: Server, servers: seq<Server>)
    ensures idleWhileArmed
    ensures first.member == second.member && first.storage.directoryOf == second.storage.directoryOf
    ensures first.serial != second.serial
    ensures first in servers && second in servers
  {
    var t := new FuzzTest();
    t.RunFuzzTest(1, LowDraws(4), 0, 2, [0, 0]);
    FirstRoundHalfDone(t);
    DrainedSlotShutDownAgain(t, 4);
    first := StaleTimerEmptiesMaps(t);
    idleWhileArmed := t.TimersIdle() && 10 in t.pending && t.pending[10].RestartTimer?;
    second, servers := OrphanFires(t, first);
  }

  /** The orphaned restart timer 10 fires: a second server for member 1 is built. */
  method OrphanFires(t: FuzzTest, first: Server) returns (second: Server, servers: seq<Server>)
    requires t.Valid() && 10 in t.pending && t.pending[10].RestartTimer? && t.pending[10].index == 1
    requires first.member == t.pending[10].server.member && first.serial < t.created
    requires first.storage.directoryOf == first.member.Primary()
    requires |t.servers| == 6 && t.servers[5] == first
    modifies t
    ensures first.member == second.member && first.storage.directoryOf == second.storage.directoryOf
    ensures first.serial != second.serial
    ensures first in servers && second in servers
  {
    second := t.RestartFires(10, StorageDraws(0, 0, 0, 0, 0, 0, 0));
    assert t.servers[5] == first && t.servers[1] == second;
    servers := t.servers;
  }

  /** Restart timer 8 fires (handle 11), then shutdown timer 6 fires (handle 12). */
  method StaleTimerEmptiesMaps(t: FuzzTest) returns (first: Server)
    requires t.Valid() && t.nextHandle == 11 && |t.servers| == 5
    requires 8 in t.pending && 10 in t.pending && t.pending[8].RestartTimer? && t.pending[10].RestartTimer?
    requires t.pending[8].index == t.pending[10].index == 1
    requires t.pending[8].server == t.pending[10].server
    requires t.restartTimers == map[1 := 10] && t.shutdownTimers == map[0 := 6]
    requires 6 in t.pending && t.pending[6].ShutdownTimer?
    modifies t
    ensures t.Valid() && t.TimersIdle()
    ensures 10 in t.pending && t.pending[10] == old(t.pending[10])
    ensures first.member == t.pending[10].server.member && first.serial < t.created
    ensures first.storage.directoryOf == first.member.Primary()
    ensures |t.servers| == 6 && t.servers[5] == first && t.servers[1] == first
  {
    first := t.RestartFires(8, StorageDraws(0, 0, 0, 0, 0, 0, 0));
    t.ShutdownFires(6);
  }

  /**
   * The same events with line 176 as evidently intended: when server 1's second shutdown
   * completes, its first restart timer (8) is cancelled, so slot 1 has a single restart timer
   * armed, and it is the one `restartTimers` records.
   */
  method CancellingKeepsOneRestartTimer() returns (staleArmed: bool, recorded: nat, armed: set<nat>)
    ensures !staleArmed
    ensures recorded == 10
    ensures armed == {10}
  {
    var t := new FuzzTest();
    t.RunFuzzTest(1, LowDraws(4), 0, 2, [0, 0]);
    FirstRoundHalfDone(t);
    SecondRound(t, 4);
    ShutDownAgainCancelling(t);
    t.OneRestartTimerPerIndex();
    staleArmed := 8 in t.pending;
    recorded := t.restartTimers[1];
    armed := set h | h in t.pending && t.pending[h].RestartTimer? && t.pending[h].index == 1;
  }

  /** Server 1 is shut down again (handle 9); its completion cancels restart timer 8. */
  method ShutDownAgainCancelling(t: FuzzTest)
    requires t.Valid() && t.RestartTimersRecorded() && t.nextHandle == 9 && |t.servers| == 5
    requires 7 in t.pending && t.pending[7] == ShutdownTimer(1, 10)
    requires 8 in t.pending && t.pending[8].RestartTimer? && t.pending[8].index == 1
    requires t.shutdownTimers == map[0 := 6, 1 := 7] && t.restartTimers == map[1 := 8]
    modifies t
    ensures t.Valid() && t.RestartTimersRecorded()
    ensures 8 !in t.pending && 8 in t.cancelled
    ensures 10 in t.pending && t.pending[10] == RestartTimer(1, old(t.servers[1]), 10)
    ensures t.restartTimers == map[1 := 10]
  {
    t.ShutdownFires(7);
    t.ShutdownCompletesCancelling(9, 0);
    assert t.restartTimers == map[1 := 8][1 := 10];
  }

  /**
   * From a round on servers 0 and 1 of four (timer handles 0 and 1): server 0 is shut down and
   * restarted (handles 2, 3 and 4, the last its bootstrap), then server 1's timer fires (handle 5).
   */
  method FirstRoundHalfDone(t: FuzzTest)
    requires t.Valid() && t.nextHandle == 2 && |t.servers| == 4 && t.restartTimers == map[]
    requires t.shutdownTimers == RoundTimers(0, 2) && t.pending == RoundJobs(0, [0, 0])
    modifies t
    ensures t.Valid() && t.TimersIdle() && t.RestartTimersRecorded() && |t.servers| == 5 && t.nextHandle == 6
    ensures 4 in t.pending && t.pending[4].Bootstrapping?
    ensures 5 in t.pending && t.pending[5] == ShuttingDown(1, t.servers[1])
  {
    assert 0 in t.pending && 1 in t.pending;
    var _, _, boot := Cycle(t, 0, 0, StorageDraws(0, 0, 0, 0, 0, 0, 0));
    t.ShutdownFires(1);
  }

  /**
   * From the state above: the second round starts on servers 0 and 1 (handles 6 and 7), the
   * first shutdown of server 1 completes (restart timer 8), and the second round shuts server 1
   * down again (handle 9); that shutdown completes too (restart timer 10).
   */
  method DrainedSlotShutDownAgain(t: FuzzTest, boot: nat)
    requires t.Valid() && t.TimersIdle() && t.RestartTimersRecorded() && |t.servers| == 5 && t.nextHandle == 6 && boot == 4
    requires boot in t.pending && t.pending[boot].Bootstrapping?
    requires 5 in t.pending && t.pending[5] == ShuttingDown(1, t.servers[1])
    modifies t
    ensures t.Valid()
    ensures 8 in t.pending && 10 in t.pending && t.pending[8].RestartTimer? && t.pending[10].RestartTimer?
    ensures t.pending[8].index == t.pending[10].index == 1
    ensures t.pending[8].server == t.pending[10].server
    ensures 1 in t.restartTimers && t.restartTimers[1] == 10
    ensures t.restartTimers == map[1 := 10] && t.shutdownTimers == map[0 := 6]
    ensures 6 in t.pending && t.pending[6].ShutdownTimer? && t.nextHandle == 11 && |t.servers| == 5
  {
    SecondRound(t, boot);
    ShutDownAgain(t);
  }

  method SecondRound(t: FuzzTest, boot: nat)
    requires t.Valid() && t.TimersIdle() && t.RestartTimersRecorded() && |t.servers| == 5 && t.nextHandle == 6 && boot == 4
    requires boot in t.pending && t.pending[boot].Bootstrapping?
    requires 5 in t.pending && t.pending[5] == ShuttingDown(1, t.servers[1])
    modifies t
    ensures t.Valid() && t.RestartTimersRecorded() && t.nextHandle == 9
    ensures 6 in t.pending && t.pending[6] == ShutdownTimer(0, 10)
    ensures 7 in t.pending && t.pending[7] == ShutdownTimer(1, 10)
    ensures 8 in t.pending && t.pending[8] == RestartTimer(1, t.servers[1], 10)
    ensures t.shutdownTimers == map[0 := 6, 1 := 7] && t.restartTimers == map[1 := 8]
    ensures t.servers == old(t.servers)
  {
    SecondRoundArmed(t, boot);
    t.ShutdownCompletes(5, 0);
  }

  /** Server 0's bootstrap completes while both maps are empty: handles 6 and 7 are armed. */
  method SecondRoundArmed(t: FuzzTest, boot: nat)
    requires t.Valid() && t.TimersIdle() && t.RestartTimersRecorded() && |t.servers| == 5 && t.nextHandle == 6 && boot == 4
    requires boot in t.pending && t.pending[boot].Bootstrapping?
    requires 5 in t.pending && t.pending[5] == ShuttingDown(1, t.servers[1])
    modifies t
    ensures t.Valid() && t.RestartTimersRecorded() && t.nextHandle == 8
    ensures |t.servers| == 5 && 5 in t.pending && t.pending[5] == ShuttingDown(1, t.servers[1])
    ensures 6 in t.pending && t.pending[6] == ShutdownTimer(0, 10)
    ensures 7 in t.pending && t.pending[7] == ShutdownTimer(1, 10)
    ensures t.shutdownTimers == map[0 := 6, 1 := 7] && t.restartTimers == map[]
    ensures t.servers == old(t.servers)
  {
    ghost var draining := t.pending[5];
    t.BootstrapCompletes(boot, 2, [0, 0]);
    assert t.pending[5] == draining;
    assert forall i: nat :: i in t.shutdownTimers <==> i < 2;
    assert t.shutdownTimers == map[0 := 6, 1 := 7];
  }

  method ShutDownAgain(t: FuzzTest)
    requires t.Valid() && t.nextHandle == 9 && |t.servers| == 5
    requires 6 in t.pending && t.pending[6].ShutdownTimer?
    requires 7 in t.pending && t.pending[7] == ShutdownTimer(1, 10)
    requires 8 in t.pending && t.pending[8].RestartTimer? && t.pending[8].index == 1
    requires t.pending[8].server == t.servers[1]
    requires t.shutdownTimers == map[0 := 6, 1 := 7] && t.restartTimers == map[1 := 8]
    modifies t
    ensures t.Valid() && t.nextHandle == 11 && t.servers == old(t.servers)
    ensures t.shutdownTimers == map[0 := 6] && 6 in t.pending && t.pending[6] == old(t.pending[6])
    ensures 8 in t.pending && t.pending[8] == old(t.pending[8])
    ensures 10 in t.pending && t.pending[10] == RestartTimer(1, old(t.servers[1]), 10)
    ensures t.restartTimers == map[1 := 10]
  {
    t.ShutdownFires(7);
    t.ShutdownCompletes(9, 0);
    assert t.restartTimers == map[1 := 8][1 := 10];
  }

  /**
   * Three replicas, and a round that shuts down all three. Slot 0 is restarted once and slots
   * 0 and 1 once more; each restart appends to the server list, which reaches six servers, so
   * the next round may draw three. Slots 0, 1 and 2 still hold a server of each member, and
   * the round arms a shutdown timer on each of them: every replica is scheduled to go down.
   */
  method RoundCoversEveryMember() returns (members: seq<Member>, servers: seq<Server>, armed: set<nat>, downed: set<Member>)
    ensures |members| == 3 && DistinctMembers(members) && |servers| == 6
    ensures armed == {0, 1, 2}
    ensures downed == RoundMembers(servers, 3)
    ensures forall j | 0 <= j < |members| :: members[j] in downed
  {
    var t := SlotZeroRestarted();
    RoundOnSlotsZeroAndOne(t);
    BothSlotsRestarted(t);
    EverySlotOfAMemberArmed(t);
    members, servers := t.members, t.servers;
    armed := t.shutdownTimers.Keys;
    downed := RoundMembers(servers, 3);
    assert forall j | 0 <= j < 3 :: servers[j].member == members[j];
  }

  /** Three replicas after the first round has cycled slot 0: four servers, bootstrap 3 pending. */
  method SlotZeroRestarted() returns (t: FuzzTest)
    ensures fresh(t) && t.Valid() && t.TimersIdle() && |t.servers| == 4 && t.nextHandle == 4
    ensures 3 in t.pending && t.pending[3].Bootstrapping?
    ensures |t.members| == 3 && SlotsKeepMembers(t.servers, t.members) && DistinctMembers(t.members)
  {
    t := ThreeServersOneTimer();
    var _, _, _ := Cycle(t, 0, 0, StorageDraws(0, 0, 0, 0, 0, 0, 0));
  }

  /** Bootstrap 3 completes and a round on slots 0 and 1 is armed (handles 4 and 5). */
  method RoundOnSlotsZeroAndOne(t: FuzzTest)
    requires t.Valid() && t.TimersIdle() && |t.servers| == 4 && t.nextHandle == 4
    requires 3 in t.pending && t.pending[3].Bootstrapping?
    modifies t
    ensures t.Valid() && t.nextHandle == 6 && t.restartTimers == map[]
    ensures t.shutdownTimers == map[0 := 4, 1 := 5]
    ensures 4 in t.pending && t.pending[4].ShutdownTimer? && t.pending[4].index == 0
    ensures 5 in t.pending && t.pending[5].ShutdownTimer? && t.pending[5].index == 1
    ensures t.servers == old(t.servers) && t.members == old(t.members)
  {
    t.BootstrapCompletes(3, 2, [0, 0]);
    assert forall i: nat :: i in t.shutdownTimers <==> i < 2;
    assert t.shutdownTimers == map[0 := 4, 1 := 5];
  }

  /** Both slots go through their whole cycle: six servers, and bootstrap 8 pending. */
  method BothSlotsRestarted(t: FuzzTest)
    requires t.Valid() && t.nextHandle == 6 && t.restartTimers == map[] && |t.servers| == 4
    requires t.shutdownTimers == map[0 := 4, 1 := 5]
    requires 4 in t.pending && t.pending[4].ShutdownTimer? && t.pending[4].index == 0
    requires 5 in t.pending && t.pending[5].ShutdownTimer? && t.pending[5].index == 1
    requires |t.members| == 3 && SlotsKeepMembers(t.servers, t.members)
    modifies t
    ensures t.Valid() && t.TimersIdle() && |t.servers| == 6
    ensures 8 in t.pending && t.pending[8].Bootstrapping?
    ensures t.members == old(t.members) && SlotsKeepMembers(t.servers, t.members)
  {
    var _, _, _ := Cycle(t, 4, 0, StorageDraws(0, 0, 0, 0, 0, 0, 0));
    assert SlotsKeepMembers(t.servers, t.members);
    var _, _, _ := Cycle(t, 5, 0, StorageDraws(0, 0, 0, 0, 0, 0, 0));
  }

  /** Bootstrap 8 completes with both maps empty, and the round draws three: slots 0, 1 and 2. */
  method EverySlotOfAMemberArmed(t: FuzzTest)
    requires t.Valid() && t.TimersIdle() && |t.servers| == 6
    requires 8 in t.pending && t.pending[8].Bootstrapping?
    modifies t
    ensures t.shutdownTimers.Keys == {0, 1, 2}
    ensures t.servers == old(t.servers) && t.members == old(t.members)
  {
    t.BootstrapCompletes(8, 3, [0, 0, 0]);
    assert forall i: nat :: i in t.shutdownTimers <==> i < 3;
    assert t.shutdownTimers.Keys == {0, 1, 2} by {
      assert 0 in t.shutdownTimers && 1 in t.shutdownTimers && 2 in t.shutdownTimers;
    }
  }
}
