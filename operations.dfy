/**
 * The three operation records clients submit (Put, Get, Remove), their compaction and
 * consistency accessors, and the choice a client's periodic task makes on each tick.
 */
module Operations {
  import opened Wrappers

  /** The size of the shared pool of random keys (FuzzTest.java line 80). */
  const KeyPoolSize: nat := 1024

  /** The library's query consistency levels, in declaration order. */
  datatype ConsistencyLevel = Sequential | LinearizableLease | Linearizable

  /** `ConsistencyLevel.values()` in declaration order. */
  const ConsistencyLevels: seq<ConsistencyLevel> := [Sequential, LinearizableLease, Linearizable]

  /** The compaction modes the harness's commands ask for. */
  datatype CompactionMode = Quorum | Tombstone

  /** A Put command, a Get query or a Remove command. */
  datatype Operation =
    | Put(key: string, value: string)
    | Get(key: string, consistency: ConsistencyLevel)
    | Remove(key: string)
  {
    predicate IsCommand() { Put? || Remove? }
  }

  /** `compaction()` of a command: a write is kept for a quorum, a delete is a tombstone. */
  function Compaction(op: Operation): (mode: CompactionMode)
    requires op.IsCommand()
    ensures mode == Quorum <==> op.Put?
    ensures mode == Tombstone <==> op.Remove?
  {
    match op
    case Put(_, _) => Quorum
    case Remove(_) => Tombstone
  }

  /** `ordinal()` of a level: its position in declaration order. */
  function Ordinal(level: ConsistencyLevel): (i: nat)
    ensures i < |ConsistencyLevels| && ConsistencyLevels[i] == level
  {
    match level
    case Sequential => 0
    case LinearizableLease => 1
    case Linearizable => 2
  }

  /**
   * `randomConsistency()`: a uniform index into the levels (line 112). Distinct draws give
   * distinct levels, so each level is drawn with the same chance.
   */
  function RandomConsistency(draw: int): (level: ConsistencyLevel)
    requires 0 <= draw < |ConsistencyLevels|
    ensures Ordinal(level) == draw
    ensures forall d | 0 <= d < |ConsistencyLevels| && d != draw :: ConsistencyLevels[d] != level
  {
    ConsistencyLevels[draw]
  }

  /** Every level is drawn by exactly one draw, its ordinal. */
  lemma RandomConsistencyOnto(level: ConsistencyLevel)
    ensures exists draw :: 0 <= draw < |ConsistencyLevels| && RandomConsistency(draw) == level
    ensures forall draw | 0 <= draw < |ConsistencyLevels| && RandomConsistency(draw) == level :: draw == Ordinal(level)
  {
    match level
    case Sequential => assert RandomConsistency(0) == level;
    case LinearizableLease => assert RandomConsistency(1) == level;
    case Linearizable => assert RandomConsistency(2) == level;
  }

  /**
   * What one tick of a client's periodic task submits (lines 134-146): `kind` is the type draw
   * in [0, 5); kinds 0, 1 and 2 submit a Put, a Get and a Remove on a random key of the pool,
   * kinds 3 and 4 submit nothing. `value` is the fresh random value a Put carries; the key
   * and consistency draws are only consumed by the kinds that use them.
   */
  function Workload(kind: int, keys: seq<string>, keyDraw: int, value: string, levelDraw: int): (op: Option<Operation>)
    requires 0 <= kind < 5
    requires |keys| == KeyPoolSize
    requires kind < 3 ==> 0 <= keyDraw < |keys|
    requires kind == 1 ==> 0 <= levelDraw < |ConsistencyLevels|
    ensures op.Some? <==> kind < 3
    ensures op.Some? ==> op.value.key == keys[keyDraw] && op.value.key in keys
    ensures kind == 0 ==> op.Some? && op.value.Put? && op.value.value == value
    ensures kind == 1 ==> op.Some? && op.value.Get? && op.value.consistency == RandomConsistency(levelDraw)
    ensures kind == 2 ==> op.Some? && op.value.Remove?
  {
    if kind == 0 then Some(Put(keys[keyDraw], value))
    else if kind == 1 then Some(Get(keys[keyDraw], RandomConsistency(levelDraw)))
    else if kind == 2 then Some(Remove(keys[keyDraw]))
    else None
  }
}
