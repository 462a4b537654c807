/**
 * FuzzStateMachine, the replicated state machine the harness stresses: a map from key to the
 * Put commit that last wrote it, with put, get and remove handlers that release commits by
 * closing them, and a snapshot that carries a single placeholder long.
 */
module StateMachine {
  import opened Wrappers
  import Operations

  /** A log entry handed to the state machine; `close()` releases it back to the log. */
  class Commit {
    const index: nat
    const operation: Operations.Operation
    var closed: bool

    constructor (index: nat, operation: Operations.Operation)
      ensures this.index == index && this.operation == operation && !closed
    {
      this.index := index;
      this.operation := operation;
      closed := false;
    }

    method Close()
      modifies this
      ensures closed
    {
      closed := true;
    }
  }

  /**
   * Where, if anywhere, the library's `operation()` accessor throws during one handler call:
   * on the incoming commit (reading its key) or on the stored Put commit (reading its value).
   */
  datatype ThrowPoint = Nowhere | OnIncoming | OnStored

  /** A handler either returns a value (a Java String or null) or throws. */
  datatype Outcome = Returned(value: Option<string>) | Threw

  /** The value the snapshot writes in place of the map (line 347). */
  const SnapshotPlaceholder: int := 10

  /** A snapshot being written: the longs written so far. */
  class SnapshotWriter {
    var longs: seq<int>

    constructor ()
      ensures longs == []
    {
      longs := [];
    }

    method WriteLong(x: int)
      modifies this
      ensures longs == old(longs) + [x]
    {
      longs := longs + [x];
    }
  }

  /** A snapshot being read: its longs and the read position. Reading past the end throws. */
  class SnapshotReader {
    const longs: seq<int>
    var position: nat

    constructor (longs: seq<int>)
      ensures this.longs == longs && position == 0
    {
      this.longs := longs;
      position := 0;
    }

    method ReadLong() returns (x: Option<int>)
      modifies this
      ensures old(position) < |longs| ==> x == Some(longs[old(position)]) && position == old(position) + 1
      ensures old(position) >= |longs| ==> x == None && position == old(position)
    {
      if position < |longs| {
        x := Some(longs[position]);
        position := position + 1;
      } else {
        x := None;
      }
    }
  }

  class FuzzStateMachine {
    /** key -> the Put commit that last wrote it */
    var entries: map<string, Commit>

    /** Every stored commit is a Put of the key it is stored under. */
    ghost predicate Valid()
      reads this
    {
      forall k | k in entries :: entries[k].operation.Put? && entries[k].operation.key == k
    }

    /** No stored commit has been released. */
    ghost predicate Healthy()
      reads this, entries.Values
    {
      forall k | k in entries :: !entries[k].closed
    }

    /** The key/value map the stored commits describe. */
    ghost function Contents(): map<string, string>
      reads this
      requires Valid()
    {
      map k | k in entries :: entries[k].operation.value
    }

    constructor ()
      ensures Valid() && Healthy() && entries == map[]
    {
      entries := map[];
    }

    /** Writes the placeholder long; the map itself is not written. */
    method Snapshot(writer: SnapshotWriter)
      modifies writer
      ensures writer.longs == old(writer.longs) + [SnapshotPlaceholder]
    {
      writer.WriteLong(SnapshotPlaceholder);
    }

    /** Consumes one long and ignores it; the map is left as it is. Throws on an empty reader. */
    method Install(reader: SnapshotReader) returns (ok: bool)
      modifies reader
      ensures ok <==> old(reader.position) < |reader.longs|
      ensures reader.position == if ok then old(reader.position) + 1 else old(reader.position)
    {
      var x := reader.ReadLong();
      ok := x.Some?;
    }

    /**
     * Stores the commit under its key and returns the value it supersedes (null if none),
     * closing the superseded commit. If an exception escapes, the incoming commit is closed
     * and the exception rethrown: when the stored commit's accessor throws, the map already
     * holds the incoming commit, which is then closed as well.
     */
    method Put(commit: Commit, throwsAt: ThrowPoint) returns (outcome: Outcome)
      requires Valid() && commit.operation.Put? && !commit.closed && commit !in entries.Values
      modifies this, commit, entries.Values
      ensures Valid()
      ensures throwsAt == OnIncoming ==> outcome == Threw && entries == old(entries) && commit.closed
      ensures throwsAt == OnIncoming ==> forall c | c in old(entries.Values) :: c.closed == old(c.closed)
      ensures throwsAt != OnIncoming ==>
        var key := commit.operation.key;
        && entries == old(entries)[key := commit]
        && (key in old(entries) ==> old(entries)[key].closed)
        && outcome == (if key !in old(entries) then Returned(None)
                       else if throwsAt == OnStored then Threw
                       else Returned(Some(old(entries)[key].operation.value)))
        && (commit.closed <==> outcome.Threw?)
        && Contents() == old(Contents())[key := commit.operation.value]
      ensures old(Healthy()) && !(throwsAt == OnStored && outcome.Threw?) ==> Healthy()
      ensures throwsAt == OnStored && outcome.Threw? ==> !Healthy()
      ensures forall c | c in old(entries.Values) && c.operation.key != commit.operation.key :: c.closed == old(c.closed)
    {
      if throwsAt == OnIncoming {
        assert forall k | k in entries :: entries[k] in entries.Values;
        commit.Close();
        return Threw;
      }
      var previous := Store(commit);
      match previous
      case None =>
        outcome := Returned(None);
      case Some(superseded) =>
        if throwsAt == OnStored {
          superseded.Close();
          commit.Close();
          outcome := Threw;
          assert entries[commit.operation.key].closed;
        } else {
          var value := superseded.operation.value;
          superseded.Close();
          outcome := Returned(Some(value));
        }
    }

    /** `map.put(key, commit)`: the commit replaces whatever was stored under its key, which is returned. */
    method Store(commit: Commit) returns (previous: Option<Commit>)
      requires Valid() && commit.operation.Put? && commit !in entries.Values
      modifies this
      ensures Valid()
      ensures var key := commit.operation.key;
        && entries == old(entries)[key := commit]
        && previous == (if key in old(entries) then Some(old(entries)[key]) else None)
        && Contents() == old(Contents())[key := commit.operation.value]
      ensures previous.Some? ==> previous.value != commit && previous.value !in entries.Values
      ensures forall k | k in entries && k != commit.operation.key :: entries[k] in old(entries.Values)
    {
      var key := commit.operation.key;
      previous := if key in entries then Some(entries[key]) else None;
      ghost var before := entries;
      entries := entries[key := commit];
      assert forall k | k in entries && k != key :: entries[k] == before[k] && entries[k].operation.key != key;
    }

    /** Returns the stored value or null, leaves the map and its commits alone, and closes the query. */
    method Get(commit: Commit, throwsAt: ThrowPoint) returns (outcome: Outcome)
      requires Valid() && commit.operation.Get?
      modifies commit
      ensures commit.closed
      ensures forall c | c in entries.Values :: c.closed == old(c.closed)
      ensures var key := commit.operation.key;
        outcome == (if throwsAt == OnIncoming then Threw
                    else if key !in entries then Returned(None)
                    else if throwsAt == OnStored then Threw
                    else Returned(Some(entries[key].operation.value)))
      ensures throwsAt == Nowhere ==>
        var key := commit.operation.key;
        outcome == Returned(if key in Contents() then Some(Contents()[key]) else None)
      ensures old(Healthy()) ==> Healthy()
    {
      if throwsAt == OnIncoming {
        outcome := Threw;
      } else {
        var key := commit.operation.key;
        if key !in entries {
          outcome := Returned(None);
        } else if throwsAt == OnStored {
          outcome := Threw;
        } else {
          outcome := Returned(Some(entries[key].operation.value));
        }
      }
      commit.Close();
    }

    /**
     * Removes the key and returns the removed value or null; the removed Put commit and the
     * Remove commit are both closed, whatever happens.
     */
    method Remove(commit: Commit, throwsAt: ThrowPoint) returns (outcome: Outcome)
      requires Valid() && commit.operation.Remove?
      modifies this, commit, entries.Values
      ensures Valid() && commit.closed
      ensures throwsAt == OnIncoming ==> outcome == Threw && entries == old(entries)
      ensures throwsAt == OnIncoming ==> forall c | c in old(entries.Values) :: c.closed == old(c.closed)
      ensures throwsAt != OnIncoming ==>
        var key := commit.operation.key;
        && entries == old(entries) - {key}
        && (key in old(entries) ==> old(entries)[key].closed)
        && outcome == (if key !in old(entries) then Returned(None)
                       else if throwsAt == OnStored then Threw
                       else Returned(Some(old(entries)[key].operation.value)))
        && Contents() == old(Contents()) - {key}
      ensures old(Healthy()) ==> Healthy()
      ensures forall c | c in old(entries.Values) && c.operation.key != commit.operation.key :: c.closed == old(c.closed)
    {
      if throwsAt == OnIncoming {
        outcome := Threw;
      } else {
        var key := commit.operation.key;
        var removed := if key in entries then Some(entries[key]) else None;
        entries := entries - {key};
        match removed
        case None =>
          outcome := Returned(None);
        case Some(gone) =>
          if throwsAt == OnStored {
            outcome := Threw;
          } else {
            outcome := Returned(Some(gone.operation.value));
          }
          gone.Close();
      }
      commit.Close();
    }
  }

  /** A key overwritten once: the second put returns the first value, and a read sees the second. */
  method OverwriteThenRead(key: string, v1: string, v2: string) returns (first: Outcome, second: Outcome, read: Outcome)
    ensures first == Returned(None)
    ensures second == Returned(Some(v1))
    ensures read == Returned(Some(v2))
  {
    var sm := new FuzzStateMachine();
    var c1 := new Commit(1, Operations.Put(key, v1));
    first := sm.Put(c1, Nowhere);
    var c2 := new Commit(2, Operations.Put(key, v2));
    second := sm.Put(c2, Nowhere);
    assert c1.closed && !c2.closed;
    var c3 := new Commit(3, Operations.Get(key, Operations.Linearizable));
    read := sm.Get(c3, Nowhere);
  }

  /** Removing an absent key returns null; removing a written key returns its value, and a read then sees null. */
  method RemoveThenRead(key: string, v: string) returns (absent: Outcome, removed: Outcome, read: Outcome)
    ensures absent == Returned(None)
    ensures removed == Returned(Some(v))
    ensures read == Returned(None)
  {
    var sm := new FuzzStateMachine();
    var c1 := new Commit(1, Operations.Remove(key));
    absent := sm.Remove(c1, Nowhere);
    var c2 := new Commit(2, Operations.Put(key, v));
    var _ := sm.Put(c2, Nowhere);
    var c3 := new Commit(3, Operations.Remove(key));
    removed := sm.Remove(c3, Nowhere);
    assert c2.closed && c3.closed;
    var c4 := new Commit(4, Operations.Get(key, Operations.Sequential));
    read := sm.Get(c4, Nowhere);
  }

  /** A snapshot taken from one state machine installs into a fresh one without error. */
  method SnapshotRoundTrip(key: string, v: string) returns (written: seq<int>, installed: bool)
    ensures written == [SnapshotPlaceholder]
    ensures installed
  {
    var source := new FuzzStateMachine();
    var c := new Commit(1, Operations.Put(key, v));
    var _ := source.Put(c, Nowhere);
    var writer := new SnapshotWriter();
    source.Snapshot(writer);
    written := writer.longs;
    var target := new FuzzStateMachine();
    var reader := new SnapshotReader(written);
    installed := target.Install(reader);
    assert target.entries == map[];
  }
}
