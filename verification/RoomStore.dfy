/** The room as the server stores it, updated in place; its ghost log is what it stands for. */
module RoomStore {
  import opened Data
  import opened WriteLog
  import RoomModel

  datatype RoomCommand =
    | Set(container: string, key: string, value: Value)
    | Del(container: string, key: string)
  {
    function AsWrite(): Write {
      Write(container, key, if Set? then value else Null)
    }
  }

  datatype RoomView = RoomView(roomCounter: nat, containers: View)

  function AsWrites(buffer: seq<RoomCommand>): Log {
    seq(|buffer|, i requires 0 <= i < |buffer| => buffer[i].AsWrite())
  }

  class RoomState {
    var containers: Containers
    var roomCounter: nat
    var txBuffer: Option<seq<RoomCommand>>
    ghost var log: Log

    /** The stored maps are the index of the log, and the counter is its length. */
    ghost predicate Valid()
      reads this
    {
      containers == Index(log) && roomCounter == |log|
    }

    ghost function Model(): RoomModel.Room
      reads this
    {
      RoomModel.Room(log, if txBuffer.None? then None else Some(AsWrites(txBuffer.value)))
    }

    constructor ()
      ensures Valid() && Model() == RoomModel.FRESH_ROOM
    {
      containers, roomCounter, txBuffer, log := map[], 0, None, [];
    }

    method SetFragment(container: string, key: string, value: Value) returns (res: Result<(), StateError>)
      requires Valid()
      modifies this
      ensures Valid()
      ensures (Model(), res) == RoomModel.Apply(old(Model()), RoomModel.Set(container, key, value))
    {
      if txBuffer.Some? {
        BufferGrows(txBuffer.value, RoomCommand.Set(container, key, value));
        txBuffer := Some(txBuffer.value + [RoomCommand.Set(container, key, value)]);
        return Ok(());
      }
      Insert(container, key, value);
      res := Ok(());
    }

    method DelFragment(container: string, key: string) returns (res: Result<(), StateError>)
      requires Valid()
      modifies this
      ensures Valid()
      ensures (Model(), res) == RoomModel.Apply(old(Model()), RoomModel.Del(container, key))
    {
      if txBuffer.Some? {
        BufferGrows(txBuffer.value, RoomCommand.Del(container, key));
        txBuffer := Some(txBuffer.value + [RoomCommand.Del(container, key)]);
        return Ok(());
      }
      IndexContainers(log, container);
      if container !in containers {
        return Err(ContainerNotFound);
      }
      Insert(container, key, Null);
      res := Ok(());
    }

    /** The step shared by SET, DEL and each operation of a commit: bump the counter and store. */
    method Insert(container: string, key: string, value: Value)
      requires Valid()
      modifies this`containers, this`roomCounter, this`log
      ensures Valid()
      ensures log == old(log) + [Write(container, key, value)]
    {
      roomCounter := roomCounter + 1;
      var entry := if container in containers then containers[container] else map[];
      containers := containers[container := entry[key := FragmentEntry(value, roomCounter)]];
      log := log + [Write(container, key, value)];
      assert log[..|log| - 1] == old(log);
    }

    method GetFragment(container: string, key: string) returns (res: Result<(Value, nat), StateError>)
      requires Valid()
      ensures res == RoomModel.Fragment(Model(), container, key)
    {
      IndexContainers(log, container);
      LookupIndex(log, container, key);
      if container !in containers {
        return Err(ContainerNotFound);
      }
      if key !in containers[container] {
        return Err(FragmentNotFound);
      }
      var fragment := containers[container][key];
      if fragment.value == Null {
        return Err(FragmentTombstone);
      }
      res := Ok((fragment.value, fragment.keyVersion));
    }

    method Info(roomId: nat) returns (info: RoomModel.RoomInfo)
      requires Valid()
      ensures info == RoomModel.InfoOf(roomId, Model())
      ensures info.containerCount <= info.fragmentCount <= info.roomCounter
    {
      var fragmentCount := 0;
      var todo := containers.Keys;
      while todo != {}
        invariant todo <= containers.Keys
        invariant fragmentCount == |Stored(containers, containers.Keys - todo)|
        decreases |todo|
      {
        var c :| c in todo;
        StoredStep(containers, containers.Keys - todo, c);
        assert containers.Keys - (todo - {c}) == containers.Keys - todo + {c};
        todo := todo - {c};
        fragmentCount := fragmentCount + |containers[c]|;
      }
      assert containers.Keys - {} == containers.Keys;
      Accounting(log);
      info := RoomModel.RoomInfo(roomId, roomCounter, |containers|, fragmentCount);
    }

    method TxBegin() returns (res: Result<(), StateError>)
      requires Valid()
      modifies this
      ensures Valid()
      ensures (Model(), res) == RoomModel.Apply(old(Model()), RoomModel.Begin)
    {
      if txBuffer.Some? {
        return Err(TxAlreadyOpen);
      }
      txBuffer := Some([]);
      assert AsWrites([]) == [];
      res := Ok(());
    }

    method TxEnd() returns (res: Result<(), StateError>)
      requires Valid()
      modifies this
      ensures Valid()
      ensures (Model(), res) == RoomModel.Apply(old(Model()), RoomModel.End)
    {
      if txBuffer.None? {
        return Err(TxNotOpen);
      }
      var buffer := txBuffer.value;
      txBuffer := None;
      var i := 0;
      while i < |buffer|
        invariant i <= |buffer|
        invariant txBuffer.None?
        invariant Valid() && log == old(log) + AsWrites(buffer)[..i]
      {
        match buffer[i] {
          case Set(container, key, value) => Insert(container, key, value);
          case Del(container, key) => Insert(container, key, Null);
        }
        i := i + 1;
      }
      assert AsWrites(buffer)[..|buffer|] == AsWrites(buffer);
      res := Ok(());
    }

    method TxAbort() returns (res: Result<(), StateError>)
      requires Valid()
      modifies this
      ensures Valid()
      ensures (Model(), res) == RoomModel.Apply(old(Model()), RoomModel.Abort)
    {
      txBuffer := None;
      res := Ok(());
    }

    method Snapshot(allowed: set<string>) returns (view: RoomView)
      requires Valid()
      ensures view == RoomView(RoomModel.Counter(Model()), RoomModel.Snapshot(Model(), allowed))
      ensures view.containers == Replay(map[], Visible(log, allowed))
    {
      var result: View := map[];
      var todo := containers.Keys;
      while todo != {}
        invariant todo <= containers.Keys
        invariant result == SnapshotOf(containers - todo, allowed)
        decreases |todo|
      {
        var name :| name in todo;
        SnapshotStep(containers, todo, name, allowed);
        todo := todo - {name};
        if name == PUBLIC || name in allowed {
          var values := CopyValues(containers[name]);
          result := result[name := values];
        }
      }
      assert containers - {} == containers;
      SnapshotIsReplay(log, allowed);
      view := RoomView(roomCounter, result);
    }

    method Delta(since: nat, allowed: set<string>) returns (view: RoomView)
      requires Valid()
      ensures view == RoomView(RoomModel.Counter(Model()), RoomModel.Delta(Model(), since, allowed))
      ensures view.containers == Replay(map[], Visible(Suffix(log, since), allowed))
    {
      DeltaIsSuffixReplay(log, since, allowed);
      if since >= roomCounter {
        return RoomView(roomCounter, map[]);
      }
      var result: View := map[];
      var todo := containers.Keys;
      while todo != {}
        invariant todo <= containers.Keys
        invariant result == NewerThan(containers - todo, since, allowed)
        decreases |todo|
      {
        var name :| name in todo;
        NewerStep(containers, todo, name, since, allowed);
        todo := todo - {name};
        if name != PUBLIC && name !in allowed {
          continue;
        }
        var values := CopyNewer(containers[name], since);
        if values != map[] {
          result := result[name := values];
        }
      }
      assert containers - {} == containers;
      view := RoomView(roomCounter, result);
    }
  }

  /** The inner loop of the snapshot: every value of one container. */
  method CopyValues(fragments: map<string, FragmentEntry>) returns (values: map<string, Value>)
    ensures values == Values(fragments)
  {
    values := map[];
    var keys := fragments.Keys;
    while keys != {}
      invariant keys <= fragments.Keys
      invariant values == Values(fragments - keys)
      decreases |keys|
    {
      var key :| key in keys;
      keys := keys - {key};
      values := values[key := fragments[key].value];
    }
    assert fragments - {} == fragments;
  }

  /** The inner loop of the delta: the values of one container written after `since`. */
  method CopyNewer(fragments: map<string, FragmentEntry>, since: nat) returns (values: map<string, Value>)
    ensures values == NewerValues(fragments, since)
  {
    values := map[];
    var keys := fragments.Keys;
    while keys != {}
      invariant keys <= fragments.Keys
      invariant values == NewerValues(fragments - keys, since)
      decreases |keys|
    {
      var key :| key in keys;
      keys := keys - {key};
      if fragments[key].keyVersion > since {
        values := values[key := fragments[key].value];
      }
    }
    assert fragments - {} == fragments;
  }

  lemma SnapshotStep(m: Containers, todo: set<string>, c: string, allowed: set<string>)
    requires c in todo && c in m
    ensures SnapshotOf(m - (todo - {c}), allowed)
         == if Allowed(c, allowed) then SnapshotOf(m - todo, allowed)[c := Values(m[c])]
            else SnapshotOf(m - todo, allowed)
  {
  }

  lemma NewerStep(m: Containers, todo: set<string>, c: string, since: nat, allowed: set<string>)
    requires c in todo && c in m
    ensures NewerThan(m - (todo - {c}), since, allowed)
         == if Allowed(c, allowed) && NewerValues(m[c], since) != map[]
            then NewerThan(m - todo, since, allowed)[c := NewerValues(m[c], since)]
            else NewerThan(m - todo, since, allowed)
  {
  }

  lemma BufferGrows(buffer: seq<RoomCommand>, cmd: RoomCommand)
    ensures AsWrites(buffer + [cmd]) == AsWrites(buffer) + [cmd.AsWrite()]
  {
  }
}
