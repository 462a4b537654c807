/**
 * The fault-injection scheduler and the cluster bookkeeping of the fuzz harness (FuzzTest).
 *
 * The library runtime (servers, clients, the transport, the thread context that runs timers,
 * futures) is the environment. What the harness has asked of it and not yet seen finish is
 * kept in `pending`, keyed by a handle: armed timers (the `Scheduled` objects) and shutdowns
 * and bootstraps whose completion has not been delivered. The environment delivers one such
 * event at a time by calling the matching method with its handle; every random draw the
 * callback makes is a parameter.
 */
module Harness {
  import opened Cluster

  /** Something the harness is waiting for. */
  datatype Job =
    | ShutdownTimer(index: nat, delay: int)                  // armed by scheduleRestart
    | ShuttingDown(index: nat, server: Server)               // shutdown() issued, not yet complete
    | RestartTimer(index: nat, server: Server, delay: int)   // armed when that shutdown completed
    | Bootstrapping(server: Server, seeds: seq<Address>)     // bootstrap() of a restarted server

  /** A job refers to a slot of the server list and to a server already built; its delay is in range. */
  predicate JobFits(j: Job, serverCount: nat, created: nat) {
    match j
    case ShutdownTimer(i, delay) => i < serverCount && DelayInRange(delay)
    case ShuttingDown(i, s) => i < serverCount && s.serial < created
    case RestartTimer(i, s, delay) => i < serverCount && DelayInRange(delay) && s.serial < created
    case Bootstrapping(s, _) => s.serial < created
  }

  /** The shutdown timers one round arms: indices 0..k-1 under handles base..base+k-1. */
  function RoundTimers(base: nat, k: nat): (timers: map<nat, nat>)
    ensures forall i: nat :: i in timers <==> i < k
    ensures forall i | i in timers :: timers[i] == base + i
  {
    if k == 0 then map[] else RoundTimers(base, k - 1)[k - 1 := base + k - 1]
  }

  /** The jobs of those timers, each with the delay its draw gives. */
  function RoundJobs(base: nat, delayDraws: seq<int>): (jobs: map<nat, Job>)
    requires forall j | 0 <= j < |delayDraws| :: 0 <= delayDraws[j] < 120
    ensures forall h: nat :: h in jobs <==> base <= h < base + |delayDraws|
    ensures forall h | h in jobs :: jobs[h] == ShutdownTimer(h - base, TimerDelay(delayDraws[h - base]))
  {
    if delayDraws == [] then map[]
    else
      var k := |delayDraws| - 1;
      RoundJobs(base, delayDraws[..k])[base + k := ShutdownTimer(k, TimerDelay(delayDraws[k]))]
  }

  /** A map holding exactly indices 0..k-1 under handles base + i is the round's timer map. */
  lemma RoundTimersExactly(timers: map<nat, nat>, base: nat, k: nat)
    requires forall i: nat :: i in timers <==> i < k
    requires forall i | i in timers :: timers[i] == base + i
    ensures timers == RoundTimers(base, k)
  {
  }

  /**
   * Jobs that keep every earlier job and add, under handles base..base+k-1 (all unused before),
   * exactly the shutdown timers of a round, are the earlier jobs plus that round.
   */
  lemma RoundJobsExactly(jobs: map<nat, Job>, earlier: map<nat, Job>, base: nat, delayDraws: seq<int>)
    requires forall j | 0 <= j < |delayDraws| :: 0 <= delayDraws[j] < 120
    requires forall h: nat :: h in jobs <==> h in earlier || base <= h < base + |delayDraws|
    requires forall h | h in earlier :: h < base && jobs[h] == earlier[h]
    requires forall j | 0 <= j < |delayDraws| :: jobs[base + j] == ShutdownTimer(j, TimerDelay(delayDraws[j]))
    ensures jobs == earlier + RoundJobs(base, delayDraws)
  {
  }

  /** The members whose servers sit in slots 0..k-1: those a round of k shutdowns stops. */
  function RoundMembers(servers: seq<Server>, k: nat): (ms: set<Member>)
    requires k <= |servers|
    ensures forall j | 0 <= j < k :: servers[j].member in ms
    ensures forall m | m in ms :: exists j :: 0 <= j < k && servers[j].member == m
  {
    set j | 0 <= j < k :: servers[j].member
  }

  /** Slot j holds a server of member j, for every member; a restart keeps this. */
  predicate SlotsKeepMembers(servers: seq<Server>, members: seq<Member>) {
    |members| <= |servers| && forall j | 0 <= j < |members| :: servers[j].member == members[j]
  }

  /** No member is listed twice. */
  predicate DistinctMembers(members: seq<Member>) {
    forall a, b | 0 <= a < b < |members| :: members[a] != members[b]
  }

  /**
   * With the round size drawn from the number of replicas, `randomNumber(members.size() - 1)`,
   * rather than from the server list, every member from slot k on is spared, so at least two
   * replicas stay up in every round however long the server list has grown.
   */
  lemma CorrectedRoundSparesMembers(servers: seq<Server>, members: seq<Member>, k: nat)
    requires SlotsKeepMembers(servers, members) && DistinctMembers(members)
    requires k < |members| - 1
    ensures forall j | k <= j < |members| :: members[j] !in RoundMembers(servers, k)
    ensures |set j | k <= j < |members| :: members[j]| >= 2
  {
    var spared := set j | k <= j < |members| :: members[j];
    var last := |members| - 1;
    var two := {members[last - 1], members[last]};
    assert |two| == 2;
    assert spared == (spared - two) + two;
    assert (spared - two) * two == {};
  }

  class FuzzTest {
    var port: int
    var members: seq<Member>
    var clients: seq<Client>
    var servers: seq<Server>
    /** server index -> handle of its armed shutdown timer */
    var shutdownTimers: map<nat, nat>
    /** server index -> handle of its armed restart timer */
    var restartTimers: map<nat, nat>
    /** handle -> what the harness is waiting for (the environment's side) */
    var pending: map<nat, Job>
    /** the next unused handle */
    var nextHandle: nat
    /** servers and clients built so far; a new object's serial number */
    var created: nat
    /** handles of the timers reset has cancelled */
    ghost var cancelled: set<nat>

    ghost predicate Valid()
      reads this
    {
      && (forall i | i in shutdownTimers ::
            shutdownTimers[i] in pending && pending[shutdownTimers[i]].ShutdownTimer? && pending[shutdownTimers[i]].index == i)
      && (forall i | i in restartTimers ::
            restartTimers[i] in pending && pending[restartTimers[i]].RestartTimer? && pending[restartTimers[i]].index == i)
      && (forall h | h in pending && pending[h].ShutdownTimer? ::
            pending[h].index in shutdownTimers && shutdownTimers[pending[h].index] == h)
      && (forall h | h in pending :: h < nextHandle && JobFits(pending[h], |servers|, created))
      && (forall j | 0 <= j < |servers| :: servers[j].serial < created)
    }

    /** `shutdownTimers.isEmpty() && restartTimers.isEmpty()`: a new round may be armed. */
    predicate TimersIdle()
      reads this
    {
      shutdownTimers == map[] && restartTimers == map[]
    }

    /**
     * Every armed restart timer is the one `restartTimers` records for its index, so each index
     * has at most one. The harness as written breaks this when a slot's second shutdown
     * completes while its first restart timer is still armed (line 176).
     */
    ghost predicate RestartTimersRecorded()
      reads this
    {
      forall h | h in pending && pending[h].RestartTimer? ::
        pending[h].index in restartTimers && restartTimers[pending[h].index] == h
    }

    /**
     * While restart timers are recorded, an index has at most one armed restart timer, and
     * empty timer maps mean that no timer of either kind is armed.
     */
    lemma OneRestartTimerPerIndex()
      requires Valid() && RestartTimersRecorded()
      ensures forall h, g | h in pending && g in pending && pending[h].RestartTimer? && pending[g].RestartTimer? ::
        pending[h].index == pending[g].index ==> h == g
      ensures TimersIdle() ==> forall h | h in pending :: !pending[h].ShutdownTimer? && !pending[h].RestartTimer?
    {
    }

    /** The harness as constructed: port 5000 and nothing else. */
    constructor ()
      ensures Valid()
      ensures port == BasePort && members == [] && clients == [] && servers == []
      ensures shutdownTimers == map[] && restartTimers == map[] && pending == map[]
      ensures nextHandle == 0 && created == 0
    {
      port := BasePort;
      members, clients, servers := [], [], [];
      shutdownTimers, restartTimers, pending := map[], map[], map[];
      nextHandle, created := 0, 0;
      cancelled := {};
    }

    /** `nextMember`: advances the port and makes a member on it (lines 249-251). */
    method NextMember(kind: MemberType) returns (m: Member)
      modifies this
      ensures port == old(port) + 1 && m == MemberAt(kind, port)
      ensures members == old(members) && servers == old(servers) && clients == old(clients)
      ensures shutdownTimers == old(shutdownTimers) && restartTimers == old(restartTimers)
      ensures pending == old(pending) && nextHandle == old(nextHandle) && created == old(created)
      ensures cancelled == old(cancelled)
    {
      port := port + 1;
      m := MemberAt(kind, port);
    }

    /**
     * `createServer(member)`: builds a server on the member's addresses with storage tuned by
     * the draws, and appends it to `servers` (line 298), whoever the caller is.
     */
    method CreateServer(member: Member, d: StorageDraws) returns (s: Server)
      requires Valid() && StorageDrawsInRange(d)
      modifies this
      ensures Valid()
      ensures s == Server(old(created), member, Storage(member, d))
      ensures servers == old(servers) + [s] && created == old(created) + 1
      ensures port == old(port) && members == old(members) && clients == old(clients)
      ensures shutdownTimers == old(shutdownTimers) && restartTimers == old(restartTimers)
      ensures pending == old(pending) && nextHandle == old(nextHandle) && cancelled == old(cancelled)
    {
      s := Server(created, member, Storage(member, d));
      servers := servers + [s];
      created := created + 1;
      assert forall h | h in pending :: JobFits(pending[h], |servers|, created);
    }

    /**
     * `createServers(n)`: adds n Active members on consecutive ports, then builds a server for
     * each of the first n members of the list and returns them. Waiting for the bootstraps is
     * not modelled.
     */
    method CreateServers(n: nat, draws: seq<StorageDraws>) returns (local: seq<Server>)
      requires Valid()
      requires |draws| == n && forall j | 0 <= j < n :: StorageDrawsInRange(draws[j])
      modifies this
      ensures Valid()
      ensures members == old(members) + MembersFrom(old(port), n) && port == old(port) + n
      ensures servers == old(servers) + local && |local| == n && created == old(created) + n
      ensures forall j | 0 <= j < n :: local[j] == Server(old(created) + j, members[j], Storage(members[j], draws[j]))
      ensures clients == old(clients)
      ensures shutdownTimers == old(shutdownTimers) && restartTimers == old(restartTimers)
      ensures pending == old(pending) && nextHandle == old(nextHandle) && cancelled == old(cancelled)
    {
      var i := 0;
      while i < n
        invariant 0 <= i <= n
        invariant Valid()
        invariant members == old(members) + MembersFrom(old(port), i) && port == old(port) + i
        invariant servers == old(servers) && created == old(created) && clients == old(clients)
        invariant shutdownTimers == old(shutdownTimers) && restartTimers == old(restartTimers)
        invariant pending == old(pending) && nextHandle == old(nextHandle) && cancelled == old(cancelled)
      {
        var m := NextMember(Active);
        members := members + [m];
        assert MembersFrom(old(port), i + 1) == MembersFrom(old(port), i) + [m];
        i := i + 1;
      }
      local := [];
      i := 0;
      while i < n
        invariant 0 <= i <= n && |local| == i
        invariant Valid()
        invariant members == old(members) + MembersFrom(old(port), n) && port == old(port) + n
        invariant servers == old(servers) + local && created == old(created) + i
        invariant forall j | 0 <= j < i :: local[j] == Server(old(created) + j, members[j], Storage(members[j], draws[j]))
        invariant clients == old(clients)
        invariant shutdownTimers == old(shutdownTimers) && restartTimers == old(restartTimers)
        invariant pending == old(pending) && nextHandle == old(nextHandle) && cancelled == old(cancelled)
      {
        var s := CreateServer(members[i], draws[i]);
        local := local + [s];
        i := i + 1;
      }
    }

    /** `createClient`: a client connected to every member's client address, appended to `clients`. */
    method CreateClient() returns (c: Client)
      requires Valid()
      modifies this
      ensures Valid()
      ensures c == Client(old(created), ClientAddresses(members))
      ensures clients == old(clients) + [c] && created == old(created) + 1
      ensures port == old(port) && members == old(members) && servers == old(servers)
      ensures shutdownTimers == old(shutdownTimers) && restartTimers == old(restartTimers)
      ensures pending == old(pending) && nextHandle == old(nextHandle) && cancelled == old(cancelled)
    {
      c := Client(created, ClientAddresses(members));
      clients := clients + [c];
      created := created + 1;
      assert forall h | h in pending :: JobFits(pending[h], |servers|, created);
    }

    /** `createClients(n)`: n clients, each connected to every member's client address. */
    method CreateClients(n: nat) returns (local: seq<Client>)
      requires Valid()
      modifies this
      ensures Valid()
      ensures clients == old(clients) + local && |local| == n && created == old(created) + n
      ensures forall j | 0 <= j < n :: local[j] == Client(old(created) + j, ClientAddresses(members))
      ensures port == old(port) && members == old(members) && servers == old(servers)
      ensures shutdownTimers == old(shutdownTimers) && restartTimers == old(restartTimers)
      ensures pending == old(pending) && nextHandle == old(nextHandle) && cancelled == old(cancelled)
    {
      local := [];
      var i := 0;
      while i < n
        invariant 0 <= i <= n && |local| == i
        invariant Valid()
        invariant clients == old(clients) + local && created == old(created) + i
        invariant forall j | 0 <= j < i :: local[j] == Client(old(created) + j, ClientAddresses(members))
        invariant port == old(port) && members == old(members) && servers == old(servers)
        invariant shutdownTimers == old(shutdownTimers) && restartTimers == old(restartTimers)
        invariant pending == old(pending) && nextHandle == old(nextHandle) && cancelled == old(cancelled)
      {
        var c := CreateClient();
        local := local + [c];
        i := i + 1;
      }
    }

    /** `scheduleRestart(i)`: arms a shutdown timer for server i (line 171). */
    method ScheduleRestart(i: nat, delayDraw: int)
      requires Valid() && i < |servers| && i !in shutdownTimers && 0 <= delayDraw < 120
      modifies this
      ensures Valid()
      ensures shutdownTimers == old(shutdownTimers)[i := old(nextHandle)]
      ensures pending == old(pending)[old(nextHandle) := ShutdownTimer(i, TimerDelay(delayDraw))]
      ensures nextHandle == old(nextHandle) + 1
      ensures restartTimers == old(restartTimers) && servers == old(servers) && created == old(created)
      ensures port == old(port) && members == old(members) && clients == old(clients) && cancelled == old(cancelled)
    {
      pending := pending[nextHandle := ShutdownTimer(i, TimerDelay(delayDraw))];
      shutdownTimers := shutdownTimers[i := nextHandle];
      nextHandle := nextHandle + 1;
    }

    /**
     * `scheduleRestarts`: only when no shutdown or restart timer is armed, draws k from
     * [0, |servers| - 1) and arms shutdown timers for servers 0..k-1 (lines 158-165).
     */
    method ScheduleRestarts(countDraw: int, delayDraws: seq<int>)
      requires Valid()
      requires TimersIdle() ==>
        && 0 <= countDraw < |servers| - 1
        && |delayDraws| == countDraw
        && forall j | 0 <= j < countDraw :: 0 <= delayDraws[j] < 120
      modifies this
      ensures Valid()
      ensures !old(TimersIdle()) ==>
        shutdownTimers == old(shutdownTimers) && pending == old(pending) && nextHandle == old(nextHandle)
      ensures old(TimersIdle()) ==>
        && shutdownTimers == RoundTimers(old(nextHandle), countDraw)
        && pending == old(pending) + RoundJobs(old(nextHandle), delayDraws)
        && nextHandle == old(nextHandle) + countDraw
      ensures restartTimers == old(restartTimers) && servers == old(servers) && created == old(created)
      ensures port == old(port) && members == old(members) && clients == old(clients) && cancelled == old(cancelled)
    {
      if TimersIdle() {
        ArmRound(countDraw, delayDraws);
      }
    }

    /** The loop of `scheduleRestarts`: one shutdown timer for each of servers 0..k-1. */
    method ArmRound(k: nat, delayDraws: seq<int>)
      requires Valid() && shutdownTimers == map[]
      requires k < |servers| - 1 && |delayDraws| == k
      requires forall j | 0 <= j < k :: 0 <= delayDraws[j] < 120
      modifies this
      ensures Valid()
      ensures shutdownTimers == RoundTimers(old(nextHandle), k)
      ensures pending == old(pending) + RoundJobs(old(nextHandle), delayDraws)
      ensures nextHandle == old(nextHandle) + k
      ensures restartTimers == old(restartTimers) && servers == old(servers) && created == old(created)
      ensures port == old(port) && members == old(members) && clients == old(clients) && cancelled == old(cancelled)
    {
      ghost var base := nextHandle;
      var i := 0;
      while i < k
        invariant 0 <= i <= k && nextHandle == base + i
        invariant Valid()
        invariant forall x: nat :: x in shutdownTimers <==> x < i
        invariant forall x | x in shutdownTimers :: shutdownTimers[x] == base + x
        invariant forall h: nat :: h in pending <==> h in old(pending) || base <= h < nextHandle
        invariant forall h | h in old(pending) :: pending[h] == old(pending)[h]
        invariant forall j | 0 <= j < i :: pending[base + j] == ShutdownTimer(j, TimerDelay(delayDraws[j]))
        invariant restartTimers == old(restartTimers) && servers == old(servers) && created == old(created)
        invariant port == old(port) && members == old(members) && clients == old(clients) && cancelled == old(cancelled)
      {
        ScheduleRestart(i, delayDraws[i]);
        i := i + 1;
      }
      RoundTimersExactly(shutdownTimers, base, k);
      RoundJobsExactly(pending, old(pending), base, delayDraws);
    }

    /**
     * A shutdown timer fires (lines 171-175): its entry leaves `shutdownTimers` first, then the
     * server now in slot i is shut down. i is in neither timer map until that completes,
     * unless a new round arms it again.
     */
    method ShutdownFires(h: nat)
      requires Valid() && h in pending && pending[h].ShutdownTimer?
      modifies this
      ensures Valid()
      ensures old(RestartTimersRecorded()) ==> RestartTimersRecorded()
      ensures var i := old(pending[h].index);
        && shutdownTimers == old(shutdownTimers) - {i}
        && pending == (old(pending) - {h})[old(nextHandle) := ShuttingDown(i, old(servers[i]))]
      ensures nextHandle == old(nextHandle) + 1
      ensures restartTimers == old(restartTimers) && servers == old(servers) && created == old(created)
      ensures port == old(port) && members == old(members) && clients == old(clients) && cancelled == old(cancelled)
    {
      var i := pending[h].index;
      pending := pending - {h};
      shutdownTimers := shutdownTimers - {i};
      var server := servers[i];
      pending := pending[nextHandle := ShuttingDown(i, server)];
      nextHandle := nextHandle + 1;
    }

    /**
     * A shutdown completes, successfully or not (lines 175-176): a restart timer for the same
     * index is armed and put in `restartTimers`, replacing (without cancelling) any timer there.
     */
    method ShutdownCompletes(h: nat, delayDraw: int)
      requires Valid() && h in pending && pending[h].ShuttingDown? && 0 <= delayDraw < 120
      modifies this
      ensures Valid()
      ensures old(RestartTimersRecorded()) && old(pending[h].index) !in old(restartTimers) ==> RestartTimersRecorded()
      ensures var j := old(pending[h]);
        && restartTimers == old(restartTimers)[j.index := old(nextHandle)]
        && pending == (old(pending) - {h})[old(nextHandle) := RestartTimer(j.index, j.server, TimerDelay(delayDraw))]
      ensures nextHandle == old(nextHandle) + 1
      ensures shutdownTimers == old(shutdownTimers) && servers == old(servers) && created == old(created)
      ensures port == old(port) && members == old(members) && clients == old(clients) && cancelled == old(cancelled)
    {
      var job := pending[h];
      pending := pending - {h};
      pending := pending[nextHandle := RestartTimer(job.index, job.server, TimerDelay(delayDraw))];
      restartTimers := restartTimers[job.index := nextHandle];
      nextHandle := nextHandle + 1;
    }

    /**
     * Line 176 as evidently intended: the restart timer already recorded for the index, if any,
     * is cancelled before the new one takes its place. This keeps restart timers recorded.
     */
    method ShutdownCompletesCancelling(h: nat, delayDraw: int)
      requires Valid() && h in pending && pending[h].ShuttingDown? && 0 <= delayDraw < 120
      modifies this
      ensures Valid()
      ensures old(RestartTimersRecorded()) ==> RestartTimersRecorded()
      ensures var j := old(pending[h]);
        var replaced := if j.index in old(restartTimers) then {old(restartTimers)[j.index]} else {};
        && restartTimers == old(restartTimers)[j.index := old(nextHandle)]
        && pending == (old(pending) - {h} - replaced)[old(nextHandle) := RestartTimer(j.index, j.server, TimerDelay(delayDraw))]
        && cancelled == old(cancelled) + replaced
      ensures nextHandle == old(nextHandle) + 1
      ensures shutdownTimers == old(shutdownTimers) && servers == old(servers) && created == old(created)
      ensures port == old(port) && members == old(members) && clients == old(clients)
    {
      CancelRestartTimer(pending[h].index);
      ShutdownCompletes(h, delayDraw);
    }

    /** Cancels the restart timer `restartTimers` records for index i, if there is one. */
    method CancelRestartTimer(i: nat)
      requires Valid()
      modifies this
      ensures Valid()
      ensures old(RestartTimersRecorded()) ==> RestartTimersRecorded()
      ensures var replaced := if i in old(restartTimers) then {old(restartTimers)[i]} else {};
        && restartTimers == old(restartTimers) - {i}
        && pending == old(pending) - replaced
        && cancelled == old(cancelled) + replaced
        && forall h | h in replaced :: old(pending[h]).RestartTimer?
      ensures nextHandle == old(nextHandle) && shutdownTimers == old(shutdownTimers)
      ensures servers == old(servers) && created == old(created)
      ensures port == old(port) && members == old(members) && clients == old(clients)
    {
      if i in restartTimers {
        var replaced := restartTimers[i];
        pending := pending - {replaced};
        cancelled := cancelled + {replaced};
        restartTimers := restartTimers - {i};
      }
    }

    /**
     * A restart timer fires (lines 177-181): its index leaves `restartTimers`, a new server is
     * built on the stopped server's own member (so its addresses and storage directory are the
     * same), `createServer` appends it to `servers` and slot i is then set to it, so the list
     * grows by one and its last element repeats slot i. The new server is bootstrapped against
     * the server addresses of all members.
     */
    method RestartFires(h: nat, d: StorageDraws) returns (restarted: Server)
      requires Valid() && h in pending && pending[h].RestartTimer? && StorageDrawsInRange(d)
      modifies this
      ensures Valid()
      ensures old(RestartTimersRecorded()) ==>
        && old(restartTimers)[old(pending[h]).index] == h
        && RestartTimersRecorded()
      ensures var j := old(pending[h]);
        && restarted == Server(old(created), j.server.member, Storage(j.server.member, d))
        && restartTimers == old(restartTimers) - {j.index}
        && servers == (old(servers) + [restarted])[j.index := restarted]
        && pending == (old(pending) - {h})[old(nextHandle) := Bootstrapping(restarted, ServerAddresses(members))]
      ensures nextHandle == old(nextHandle) + 1 && created == old(created) + 1
      ensures shutdownTimers == old(shutdownTimers)
      ensures port == old(port) && members == old(members) && clients == old(clients) && cancelled == old(cancelled)
    {
      var job := TakeRestartTimer(h);
      restarted := CreateServer(job.server.member, d);
      servers := servers[job.index := restarted];
      Await(Bootstrapping(restarted, ServerAddresses(members)));
    }

    /** The restart timer behind handle h has fired: it leaves `pending` and `restartTimers`. */
    method TakeRestartTimer(h: nat) returns (job: Job)
      requires Valid() && h in pending && pending[h].RestartTimer?
      modifies this
      ensures Valid()
      ensures job == old(pending[h]) && pending == old(pending) - {h}
      ensures restartTimers == old(restartTimers) - {job.index}
      ensures nextHandle == old(nextHandle) && created == old(created) && shutdownTimers == old(shutdownTimers)
      ensures servers == old(servers) && port == old(port) && members == old(members)
      ensures clients == old(clients) && cancelled == old(cancelled)
    {
      job := pending[h];
      pending := pending - {h};
      restartTimers := restartTimers - {job.index};
    }

    /** Starts waiting for an event that is not a shutdown timer, under the next handle. */
    method Await(job: Job)
      requires Valid() && !job.ShutdownTimer? && JobFits(job, |servers|, created)
      modifies this
      ensures Valid()
      ensures pending == old(pending)[old(nextHandle) := job] && nextHandle == old(nextHandle) + 1
      ensures restartTimers == old(restartTimers) && created == old(created) && shutdownTimers == old(shutdownTimers)
      ensures servers == old(servers) && port == old(port) && members == old(members)
      ensures clients == old(clients) && cancelled == old(cancelled)
    {
      pending := pending[nextHandle := job];
      nextHandle := nextHandle + 1;
    }

    /** A restarted server's bootstrap completes, successfully or not: the next round is tried (182). */
    method BootstrapCompletes(h: nat, countDraw: int, delayDraws: seq<int>)
      requires Valid() && h in pending && pending[h].Bootstrapping?
      requires TimersIdle() ==>
        && 0 <= countDraw < |servers| - 1
        && |delayDraws| == countDraw
        && forall j | 0 <= j < countDraw :: 0 <= delayDraws[j] < 120
      modifies this
      ensures Valid()
      ensures old(RestartTimersRecorded()) ==> RestartTimersRecorded()
      ensures !old(TimersIdle()) ==>
        shutdownTimers == old(shutdownTimers) && pending == old(pending) - {h} && nextHandle == old(nextHandle)
      ensures old(TimersIdle()) ==>
        && shutdownTimers == RoundTimers(old(nextHandle), countDraw)
        && pending == (old(pending) - {h}) + RoundJobs(old(nextHandle), delayDraws)
        && nextHandle == old(nextHandle) + countDraw
      ensures restartTimers == old(restartTimers) && servers == old(servers) && created == old(created)
      ensures port == old(port) && members == old(members) && clients == old(clients) && cancelled == old(cancelled)
    {
      pending := pending - {h};
      ScheduleRestarts(countDraw, delayDraws);
    }

    /**
     * `reset` (lines 192-241): cancels every timer in the two maps and clears them, drops the
     * members, clients and servers and puts the port back to 5000. Closing clients, shutting
     * servers down and deleting the log directory are library and file-system calls.
     */
    method Reset()
      modifies this
      ensures Valid() && RestartTimersRecorded()
      ensures shutdownTimers == map[] && restartTimers == map[] && pending == map[]
      ensures cancelled == old(cancelled) + old(shutdownTimers.Values) + old(restartTimers.Values)
      ensures port == BasePort && members == [] && clients == [] && servers == []
      ensures nextHandle == old(nextHandle) && created == old(created)
    {
      var toCancel := shutdownTimers.Values;
      while toCancel != {}
        invariant toCancel <= old(shutdownTimers.Values)
        invariant cancelled == old(cancelled) + (old(shutdownTimers.Values) - toCancel)
        invariant shutdownTimers == old(shutdownTimers) && restartTimers == old(restartTimers)
        invariant nextHandle == old(nextHandle) && created == old(created)
        decreases toCancel
      {
        var t :| t in toCancel;
        cancelled := cancelled + {t};
        toCancel := toCancel - {t};
      }
      shutdownTimers := map[];
      toCancel := restartTimers.Values;
      while toCancel != {}
        invariant toCancel <= old(restartTimers.Values)
        invariant cancelled == old(cancelled) + old(shutdownTimers.Values) + (old(restartTimers.Values) - toCancel)
        invariant shutdownTimers == map[] && restartTimers == old(restartTimers)
        invariant nextHandle == old(nextHandle) && created == old(created)
        decreases toCancel
      {
        var t :| t in toCancel;
        cancelled := cancelled + {t};
        toCancel := toCancel - {t};
      }
      restartTimers := map[];
      // Jobs still in flight are dropped: the model assumes no shutdown or bootstrap completes
      // while reset runs, although their callbacks run on the library's futures and could re-arm
      // a timer after the maps above were cleared.
      pending := map[];
      members := [];
      port := BasePort;
      clients := [];
      servers := [];
    }

    /** The set-up part of one iteration (lines 125-148): reset, then n servers and m clients. */
    method SetUp(serverDraw: int, storageDraws: seq<StorageDraws>, clientDraw: int)
      requires 0 <= serverDraw < 4 && 0 <= clientDraw < 5
      requires |storageDraws| == ServerCount(serverDraw)
      requires forall j | 0 <= j < |storageDraws| :: StorageDrawsInRange(storageDraws[j])
      modifies this
      ensures Valid()
      ensures port == BasePort + ServerCount(serverDraw)
      ensures members == MembersFrom(BasePort, ServerCount(serverDraw))
      ensures |servers| == ServerCount(serverDraw)
      ensures forall j | 0 <= j < |servers| :: servers[j].member == members[j]
      ensures forall j | 0 <= j < |servers| :: servers[j].storage == Storage(members[j], storageDraws[j])
      ensures |clients| == ClientCount(clientDraw)
      ensures forall j | 0 <= j < |clients| :: clients[j].connectTo == ClientAddresses(members)
      ensures shutdownTimers == map[] && restartTimers == map[] && pending == map[]
      ensures nextHandle == old(nextHandle)
    {
      Reset();
      var _ := CreateServers(ServerCount(serverDraw), storageDraws);
      var cs := CreateClients(ClientCount(clientDraw));
      assert clients == cs;
    }

    /**
     * One iteration up to its observation window (lines 125-150): the set-up, then the first
     * round of the fault schedule.
     */
    method RunFuzzTest(serverDraw: int, storageDraws: seq<StorageDraws>, clientDraw: int,
                       countDraw: int, delayDraws: seq<int>)
      requires 0 <= serverDraw < 4 && 0 <= clientDraw < 5
      requires |storageDraws| == ServerCount(serverDraw)
      requires forall j | 0 <= j < |storageDraws| :: StorageDrawsInRange(storageDraws[j])
      requires 0 <= countDraw < ServerCount(serverDraw) - 1 && |delayDraws| == countDraw
      requires forall j | 0 <= j < countDraw :: 0 <= delayDraws[j] < 120
      modifies this
      ensures Valid() && RestartTimersRecorded()
      ensures port == BasePort + ServerCount(serverDraw)
      ensures members == MembersFrom(BasePort, ServerCount(serverDraw))
      ensures |servers| == ServerCount(serverDraw)
      ensures forall j | 0 <= j < |servers| :: servers[j].member == members[j]
      ensures forall j | 0 <= j < |servers| :: servers[j].storage == Storage(members[j], storageDraws[j])
      ensures |clients| == ClientCount(clientDraw)
      ensures forall j | 0 <= j < |clients| :: clients[j].connectTo == ClientAddresses(members)
      ensures shutdownTimers == RoundTimers(old(nextHandle), countDraw) && restartTimers == map[]
      ensures pending == RoundJobs(old(nextHandle), delayDraws)
      ensures nextHandle == old(nextHandle) + countDraw
    {
      SetUp(serverDraw, storageDraws, clientDraw);
      assert map[] + RoundJobs(nextHandle, delayDraws) == RoundJobs(nextHandle, delayDraws);
      ScheduleRestarts(countDraw, delayDraws);
    }
  }
}
