/**
 * Cluster bookkeeping of the fuzz harness: the identity of a replica (its member record and
 * addresses), the storage tuning a replica is built with, the handles for servers and clients,
 * and the integer draws that pick server, client and timer counts.
 *
 * Every random choice of the harness is an integer draw `r` from `Random.nextInt(limit)`, so
 * the functions here take the draw as a parameter with `0 <= r < limit`.
 */
module Cluster {

  /** The port counter's value after a reset (FuzzTest.java line 73 and 237). */
  const BasePort: int := 5000
  /** A member's client port is its server port plus this offset (line 250). */
  const ClientPortOffset: int := 1000
  const Localhost: string := "localhost"

  datatype Address = Address(host: string, port: int)

  /** The library's member types; the harness only ever creates Active members. */
  datatype MemberType = Inactive | Reserve | Passive | Promotable | Active

  /** TestMember: the type and the two addresses; `address()` is the server address. */
  datatype Member = TestMember(kind: MemberType, serverAddress: Address, clientAddress: Address)
  {
    function Primary(): Address { serverAddress }
  }

  /** The member `nextMember` returns once the port counter has been advanced to `p`. */
  function MemberAt(kind: MemberType, p: int): (m: Member)
    ensures m.serverAddress == Address(Localhost, p) && m.Primary() == m.serverAddress
    ensures m.clientAddress.host == Localhost
    ensures m.clientAddress.port - m.serverAddress.port == ClientPortOffset
    ensures m.kind == kind
  {
    TestMember(kind, Address(Localhost, p), Address(Localhost, p + ClientPortOffset))
  }

  /** The members `createServers(n)` adds when the port counter starts at `base`. */
  function MembersFrom(base: int, n: nat): (ms: seq<Member>)
    ensures |ms| == n
    ensures forall j :: 0 <= j < n ==> ms[j] == MemberAt(Active, base + 1 + j)
  {
    seq(n, j requires 0 <= j < n => MemberAt(Active, base + 1 + j))
  }

  /** `members.stream().map(Member::serverAddress)`: what a server bootstraps against. */
  function ServerAddresses(ms: seq<Member>): (addrs: seq<Address>)
    ensures |addrs| == |ms|
    ensures forall j :: 0 <= j < |ms| ==> addrs[j] == ms[j].serverAddress
  {
    if ms == [] then [] else [ms[0].serverAddress] + ServerAddresses(ms[1..])
  }

  /** `members.stream().map(Member::clientAddress)`: what a client connects to. */
  function ClientAddresses(ms: seq<Member>): (addrs: seq<Address>)
    ensures |addrs| == |ms|
    ensures forall j :: 0 <= j < |ms| ==> addrs[j] == ms[j].clientAddress
  {
    if ms == [] then [] else [ms[0].clientAddress] + ClientAddresses(ms[1..])
  }

  /**
   * After a reset, `createServers(n)` hands out server ports 5001..5000+n and client ports
   * 1000 above them; as long as fewer than 1000 members are created, no port is used twice.
   */
  lemma FreshRunAddresses(n: nat)
    requires n <= ClientPortOffset
    ensures var ms := MembersFrom(BasePort, n);
      && (forall j :: 0 <= j < n ==> ServerAddresses(ms)[j].port == BasePort + 1 + j)
      && (forall j :: 0 <= j < n ==> ClientAddresses(ms)[j].port == ServerAddresses(ms)[j].port + ClientPortOffset)
      && (forall a, b :: 0 <= a < n && 0 <= b < n ==> ServerAddresses(ms)[a] != ClientAddresses(ms)[b])
      && (forall a, b :: 0 <= a < b < n ==> ServerAddresses(ms)[a] != ServerAddresses(ms)[b])
      && (forall a, b :: 0 <= a < b < n ==> ClientAddresses(ms)[a] != ClientAddresses(ms)[b])
  {
  }

  /** Storage levels of the library; the harness always asks for Disk. */
  datatype StorageLevel = Memory | Mapped | Disk

  /** The seven integer draws `createServer` makes for one replica's storage (lines 285-292). */
  datatype StorageDraws = StorageDraws(segment: int, entries: int, threads: int, buffer: int,
                                       flush: int, minor: int, major: int)

  predicate StorageDrawsInRange(d: StorageDraws) {
    && 0 <= d.segment < 1024 * 16
    && 0 <= d.entries < 1000
    && 0 <= d.threads < 4
    && 0 <= d.buffer < 100
    && 0 <= d.flush < 2
    && 0 <= d.minor < 30
    && 0 <= d.major < 60
  }

  /**
   * The storage of one replica. The directory is named after the member's address (through its
   * hash code, which is not modelled), so it is recorded here as that address; the compaction
   * threshold is a floating-point draw and is not modelled. Intervals are in seconds.
   */
  datatype StorageConfig = StorageConfig(
    level: StorageLevel,
    directoryOf: Address,
    maxSegmentSize: int,
    maxEntriesPerSegment: int,
    compactionThreads: int,
    entryBufferSize: int,
    flushOnCommit: bool,
    minorCompactionInterval: int,
    majorCompactionInterval: int)

  /** The bounds every storage configuration of the harness lies within. */
  predicate StorageInRange(c: StorageConfig) {
    && c.level == Disk
    && 1024 * 8 <= c.maxSegmentSize < 1024 * 24
    && 100 <= c.maxEntriesPerSegment < 1100
    && 1 <= c.compactionThreads <= 4
    && 1 <= c.entryBufferSize <= 100
    && 15 <= c.minorCompactionInterval < 45
    && 60 <= c.majorCompactionInterval < 120
  }

  /** The storage `createServer(member)` builds from the draws `d`. */
  function Storage(member: Member, d: StorageDraws): (c: StorageConfig)
    requires StorageDrawsInRange(d)
    ensures StorageInRange(c)
    ensures c.directoryOf == member.Primary()
    ensures c.flushOnCommit <==> d.flush == 1
  {
    StorageConfig(Disk, member.Primary(),
      d.segment + 1024 * 8, d.entries + 100, d.threads + 1, d.buffer + 1,
      d.flush == 1, d.minor + 15, d.major + 60)
  }

  /** The bounds are exact: every configuration within them is produced by some draws. */
  lemma StorageOnto(member: Member, c: StorageConfig)
    requires StorageInRange(c) && c.directoryOf == member.Primary()
    ensures exists d :: StorageDrawsInRange(d) && Storage(member, d) == c
  {
    var d := StorageDraws(c.maxSegmentSize - 1024 * 8, c.maxEntriesPerSegment - 100,
      c.compactionThreads - 1, c.entryBufferSize - 1, if c.flushOnCommit then 1 else 0,
      c.minorCompactionInterval - 15, c.majorCompactionInterval - 60);
    assert Storage(member, d) == c;
  }

  /** A replica handle: a Java object, so it carries a serial number standing for its identity. */
  datatype Server = Server(serial: nat, member: Member, storage: StorageConfig)

  /** A client handle and the addresses it was asked to connect to. */
  datatype Client = Client(serial: nat, connectTo: seq<Address>)

  /** `randomNumber(4) + 3` servers per iteration (line 128). */
  function ServerCount(draw: int): (n: nat)
    requires 0 <= draw < 4
    ensures 3 <= n <= 6
  {
    draw + 3
  }

  /** `randomNumber(5) + 1` clients per iteration (line 130). */
  function ClientCount(draw: int): (n: nat)
    requires 0 <= draw < 5
    ensures 1 <= n <= 5
  {
    draw + 1
  }

  /** `randomNumber(120) + 10` seconds, the delay of every shutdown and restart timer (171, 176). */
  function TimerDelay(draw: int): (seconds: int)
    requires 0 <= draw < 120
    ensures 10 <= seconds <= 129
  {
    draw + 10
  }

  predicate DelayInRange(seconds: int) { 10 <= seconds <= 129 }

  /** Every server count from 3 to 6 is drawn by exactly one draw. */
  lemma ServerCountOnto(n: int)
    requires 3 <= n <= 6
    ensures exists draw :: 0 <= draw < 4 && ServerCount(draw) == n
    ensures forall draw | 0 <= draw < 4 && ServerCount(draw) == n :: draw == n - 3
  {
    assert ServerCount(n - 3) == n;
  }

  /** Every client count from 1 to 5 is drawn by exactly one draw. */
  lemma ClientCountOnto(n: int)
    requires 1 <= n <= 5
    ensures exists draw :: 0 <= draw < 5 && ClientCount(draw) == n
    ensures forall draw | 0 <= draw < 5 && ClientCount(draw) == n :: draw == n - 1
  {
    assert ClientCount(n - 1) == n;
  }

  /** Every delay from 10 to 129 seconds is drawn by exactly one draw. */
  lemma TimerDelayOnto(seconds: int)
    requires DelayInRange(seconds)
    ensures exists draw :: 0 <= draw < 120 && TimerDelay(draw) == seconds
    ensures forall draw | 0 <= draw < 120 && TimerDelay(draw) == seconds :: draw == seconds - 10
  {
    assert TimerDelay(seconds - 10) == seconds;
  }
}
