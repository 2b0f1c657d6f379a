/** The offload handlers as the objects they are: dictionaries and counters updated in place.
    Every method is proved to make the transition of the same name in OffloadModel. */
module OffloadHandler {
  import opened Wrappers
  import opened OffloadWindow
  import opened OffloadModel

  // A method's result and the state it leaves, as an outcome of the transition it makes.
  function Ended<S>(r: Outcome<()>, s: S): Outcome<S> {
    if r.Ok? then Ok(s) else Err(r.error)
  }

  function Returned<S, T>(r: Outcome<T>, s: S): Outcome<(S, T)> {
    if r.Ok? then Ok((s, r.value)) else Err(r.error)
  }

  class SynchronizedGroupOffloadHandler {
    const numOffloadGroup: nat
    var currentGroup: nat
    var tensorCountCurrentGroup: nat
    var tensorTagToState: map<Tag, SyncSlot>

    constructor (numOffloadGroup: nat)
      ensures this.numOffloadGroup == numOffloadGroup && Abstract() == SYNC_INITIAL
    {
      this.numOffloadGroup := numOffloadGroup;
      currentGroup, tensorCountCurrentGroup, tensorTagToState := 0, 0, map[];
    }

    ghost function Abstract(): SyncState
      reads this
    {
      SyncState(currentGroup, tensorCountCurrentGroup, tensorTagToState)
    }

    method OnGroupCommitForward()
      modifies this
      ensures Abstract() == SyncCommitForward(old(Abstract()))
    {
      currentGroup := currentGroup + 1;
      tensorCountCurrentGroup := 0;
    }

    method OnGroupCommitBackward() returns (r: Outcome<()>)
      modifies this
      ensures SyncCommitBackward(old(Abstract())) == Ended(r, Abstract())
    {
      if currentGroup == 0 {
        return Err(NegativeGroup);
      }
      currentGroup := currentGroup - 1;
      r := Ok(());
    }

    method TensorPush(t: Tensor, need: bool) returns (r: Outcome<Tag>)
      modifies this
      ensures SyncPush(numOffloadGroup, old(Abstract()), t, need) == Returned(r, Abstract())
    {
      var tag := Tag(currentGroup, tensorCountCurrentGroup);
      tensorCountCurrentGroup := tensorCountCurrentGroup + 1;
      if tag in tensorTagToState {
        return Err(TagTaken);
      }
      if currentGroup < numOffloadGroup && need {
        tensorTagToState := tensorTagToState[tag := OnHost(t)];
      } else {
        tensorTagToState := tensorTagToState[tag := Kept(t)];
      }
      r := Ok(tag);
    }

    method TensorPop(tag: Tag) returns (r: Outcome<Tensor>)
      modifies this
      ensures SyncPop(old(Abstract()), tag) == Returned(r, Abstract())
    {
      if tag !in tensorTagToState {
        return Err(UnknownTag);
      }
      var slot := tensorTagToState[tag];
      tensorTagToState := tensorTagToState - {tag};
      match slot
      case OnHost(copy) => r := Ok(copy.(key := Reloaded(copy.key)));
      case Kept(t) => r := Ok(t);
    }
  }

  class AsyncDoubleBufferGroupOffloadHandler {
    const numOffloadGroup: nat
    const numLayers: nat
    var currentGroup: nat
    var tensorCountCurrentGroup: nat
    var offloadedGroupCount: int
    var tensorTagToState: map<Tag, Slot>
    var tensorTagToBuf: map<Tag, Buffer>
    var groupOffloadMapping: map<int, map<Key, seq<int>>>
    var layerWindowMap: map<int, int>
    ghost var streams: Streams

    ghost predicate Valid()
      reads this
    {
      layerWindowMap == WindowMap(numOffloadGroup, numLayers)
    }

    ghost function Abstract(): State
      reads this
    {
      State(currentGroup, tensorCountCurrentGroup, offloadedGroupCount, tensorTagToState, tensorTagToBuf,
            groupOffloadMapping, streams)
    }

    constructor (numOffloadGroup: nat, numModelGroup: nat)
      ensures this.numOffloadGroup == numOffloadGroup && numLayers == numModelGroup
      ensures Valid() && Abstract() == INITIAL
    {
      this.numOffloadGroup := numOffloadGroup;
      numLayers := numModelGroup;
      currentGroup, tensorCountCurrentGroup, offloadedGroupCount := 0, 0, 0;
      tensorTagToState, tensorTagToBuf, groupOffloadMapping := map[], map[], map[];
      streams := NO_STREAMS;
      new;
      layerWindowMap := FillWindowMap(numOffloadGroup, numModelGroup);
    }

    method TensorPush(t: Tensor, need: bool) returns (r: Outcome<Handle>)
      requires Valid()
      modifies this
      ensures Valid()
      ensures Push(numOffloadGroup, old(Abstract()), t, need) == Returned(r, Abstract())
    {
      var needOffload := !t.stray;
      needOffload := needOffload && need;
      if needOffload {
        var tag := Tag(currentGroup, tensorCountCurrentGroup);
        tensorCountCurrentGroup := tensorCountCurrentGroup + 1;
        if tag in tensorTagToState {
          return Err(TagTaken);
        }
        tensorTagToState := tensorTagToState[tag := OnDevice(t)];
        if currentGroup < numOffloadGroup {
          tensorTagToBuf := tensorTagToBuf[tag := Held(t)];
        }
        streams := streams.Issue(Compute, Produce(currentGroup));
        r := Ok(Tagged(tag));
      } else {
        r := Ok(Untracked(t));
      }
    }

    method TensorPop(h: Handle) returns (r: Outcome<Tensor>)
      requires Valid()
      modifies this
      ensures Valid()
      ensures Pop(old(Abstract()), h) == Returned(r, Abstract())
    {
      match h
      case Untracked(t) =>
        r := Ok(t);
      case Tagged(tag) =>
        if tag !in tensorTagToState {
          return Err(UnknownTag);
        }
        var slot := tensorTagToState[tag];
        tensorTagToState := tensorTagToState - {tag};
        tensorTagToBuf := tensorTagToBuf - {tag};
        if slot.OffDevice? {
          return Err(StillOffDevice);
        }
        streams := streams.Issue(Compute, Use(tag.group));
        r := Ok(slot.tensor);
    }

    // The loop of bulk_offload_group over the dictionary, in whatever order it is visited.
    method EvictGroup(g: nat) returns (r: Outcome<map<Key, seq<int>>>)
      requires SharedStorage(tensorTagToState, g)
      modifies `tensorTagToState
      ensures r.Err? <==> AnyOff(old(tensorTagToState), g)
      ensures r.Err? ==> r.error == AlreadyOffDevice
      ensures r.Ok? ==> tensorTagToState == MovedOff(old(tensorTagToState), g)
                        && r.value == BackupOf(old(tensorTagToState), g)
    {
      var slots := tensorTagToState;
      var mapping: map<Key, seq<int>> := map[];
      var todo := slots.Keys;
      while todo != {}
        invariant todo <= slots.Keys == tensorTagToState.Keys
        invariant forall tag :: tag in slots ==>
                    tensorTagToState[tag] ==
                    if tag in todo || tag.group != g then slots[tag] else Evicted(slots[tag])
        invariant Gathered(slots, g, todo, mapping)
      {
        var tag :| tag in todo;
        ghost var before, was := todo, mapping;
        todo := todo - {tag};
        if tag.group == g {
          if slots[tag].OffDevice? {
            return Err(AlreadyOffDevice);
          }
          var t := slots[tag].tensor;
          if t.key !in mapping {
            mapping := mapping[t.key := t.data];
          }
          tensorTagToState := tensorTagToState[tag := OffDevice(t.key, t.shape)];
        }
        GatherOne(slots, g, before, tag, was, mapping);
      }
      assert tensorTagToState == MovedOff(slots, g);
      MappingIsBackup(slots, g, mapping);
      r := Ok(mapping);
    }

    // What the mapping holds when only `todo` is left to visit.
    ghost predicate Gathered(slots: map<Tag, Slot>, g: int, todo: set<Tag>, mapping: map<Key, seq<int>>) {
      && (forall tag :: tag in slots && tag.group == g && tag !in todo
            ==> slots[tag].OnDevice? && slots[tag].tensor.key in mapping)
      && (forall key :: key in mapping ==> HasSource(slots, g, key, mapping[key]))
    }

    ghost predicate HasSource(slots: map<Tag, Slot>, g: int, key: Key, data: seq<int>) {
      exists tag :: tag in slots && tag.group == g && slots[tag].OnDevice?
             && slots[tag].tensor.key == key && slots[tag].tensor.data == data
    }

    lemma GatherOne(slots: map<Tag, Slot>, g: int, todo: set<Tag>, tag: Tag, was: map<Key, seq<int>>,
                    now: map<Key, seq<int>>)
      requires Gathered(slots, g, todo, was) && tag in slots
      requires tag.group != g ==> now == was
      requires tag.group == g ==> slots[tag].OnDevice?
      requires tag.group == g ==> now == if slots[tag].tensor.key in was then was
                                         else was[slots[tag].tensor.key := slots[tag].tensor.data]
      ensures Gathered(slots, g, todo - {tag}, now)
    {
    }

    method BulkOffloadGroup(g: nat) returns (r: Outcome<()>)
      requires Valid()
      requires SharedStorage(tensorTagToState, g)
      modifies this
      ensures Valid()
      ensures BulkOffload(old(Abstract()), g) == Ended(r, Abstract())
    {
      hide AnyOff, AnyIn, MovedOff, BackupOf, SharedStorage;
      var slots := tensorTagToState;
      var mapping := EvictGroup(g);
      if mapping.Err? {
        return Err(mapping.error);
      }
      groupOffloadMapping := groupOffloadMapping[g := mapping.value];
      if AnyIn(slots, g) {
        streams := streams.Issue(DeviceToHost, CopyOut(g));
      }
      r := Ok(());
    }

    // Under the shared-storage assumption the visiting order of the dictionary does not matter.
    lemma MappingIsBackup(slots: map<Tag, Slot>, g: int, mapping: map<Key, seq<int>>)
      requires SharedStorage(slots, g) && Gathered(slots, g, {}, mapping)
      ensures mapping == BackupOf(slots, g)
    {
      forall key | key in mapping
        ensures key in KeysOf(slots, g) && mapping[key] == BackupOf(slots, g)[key]
      {
        assert HasSource(slots, g, key, mapping[key]);
        var tag :| tag in slots && tag.group == g && slots[tag].OnDevice?
                   && slots[tag].tensor.key == key && slots[tag].tensor.data == mapping[key];
        var rep := Representative(slots, g, key);
        assert tag in TagsOf(slots, g) && rep in TagsOf(slots, g);
      }
      assert mapping.Keys == KeysOf(slots, g);
    }

    method ReleaseBuffers(g: int)
      modifies `tensorTagToBuf
      ensures tensorTagToBuf == Released(old(tensorTagToBuf), g)
    {
      var bufs := tensorTagToBuf;
      var todo := bufs.Keys;
      while todo != {}
        invariant todo <= bufs.Keys == tensorTagToBuf.Keys
        invariant forall tag :: tag in bufs ==>
                    tensorTagToBuf[tag] == if tag.group == g && tag !in todo then Freed else bufs[tag]
      {
        var tag :| tag in todo;
        todo := todo - {tag};
        if tag.group == g {
          tensorTagToBuf := tensorTagToBuf[tag := Freed];
        }
      }
    }

    lemma SharedAfterOffload(slots: map<Tag, Slot>, g: int)
      requires forall h :: SharedStorage(slots, h)
      ensures forall h :: SharedStorage(MovedOff(slots, g), h)
    {
      var moved := MovedOff(slots, g);
      forall h ensures SharedStorage(moved, h) {
        assert SharedStorage(slots, h);
        assert TagsOf(moved, h) == TagsOf(slots, h);
      }
    }

    // The first block of synchronize_on_group_commit_forward.
    method KickstartOffload() returns (r: Outcome<()>)
      requires Valid()
      requires forall g :: SharedStorage(tensorTagToState, g)
      modifies this
      ensures Valid()
      ensures r.Ok? ==> forall g :: SharedStorage(tensorTagToState, g)
      ensures Kickstart(old(Abstract())) == Ended(r, Abstract())
    {
      SharedAfterOffload(tensorTagToState, 0);
      r := Ok(());
      if currentGroup == 0 {
        streams := streams.Wait(DeviceToHost, Compute);
        r := BulkOffloadGroup(0);
      }
    }

    // Its second block, under the guard that a window closes now: first the synchronisation and the release,
    method UncoverCurrentWindow()
      requires Valid() && offloadedGroupCount >= 0
      modifies `streams, `tensorTagToBuf
      ensures Valid()
      ensures Abstract() == Uncover(old(Abstract()))
    {
      streams := streams.Wait(DeviceToHost, Compute);
      streams := streams.Wait(Compute, DeviceToHost);
      ReleaseBuffers(offloadedGroupCount);
      streams := streams.Issue(Compute, Free(offloadedGroupCount));
    }

    // then the offload of the next group.
    method CloseCurrentWindow() returns (r: Outcome<()>)
      requires Valid() && offloadedGroupCount >= 0
      requires SharedStorage(tensorTagToState, offloadedGroupCount + 1)
      modifies this
      ensures Valid()
      ensures CloseWindow(numOffloadGroup, old(Abstract())) == Ended(r, Abstract())
    {
      UncoverCurrentWindow();
      if offloadedGroupCount < numOffloadGroup - 1 {
        r := BulkOffloadGroup(offloadedGroupCount + 1);
        if r.Err? {
          return;
        }
      }
      offloadedGroupCount := offloadedGroupCount + 1;
      r := Ok(());
    }

    method SynchronizeOnGroupCommitForward() returns (r: Outcome<()>)
      requires Valid()
      requires forall g :: SharedStorage(tensorTagToState, g)
      modifies this
      ensures Valid()
      ensures Synchronize(numOffloadGroup, numLayers, old(Abstract())) == Ended(r, Abstract())
    {
      r := KickstartOffload();
      if r.Err? {
        return;
      }
      if offloadedGroupCount !in layerWindowMap {
        return Err(NoWindow);
      }
      if layerWindowMap[offloadedGroupCount] == currentGroup {
        r := CloseCurrentWindow();
      }
    }

    method OnGroupCommitForward() returns (r: Outcome<()>)
      requires Valid()
      requires forall g :: SharedStorage(tensorTagToState, g)
      modifies this
      ensures Valid()
      ensures CommitForward(numOffloadGroup, numLayers, old(Abstract())) == Ended(r, Abstract())
    {
      r := SynchronizeOnGroupCommitForward();
      if r.Err? {
        return;
      }
      currentGroup := currentGroup + 1;
      tensorCountCurrentGroup := 0;
    }

    // The loop of bulk_reload_group that replaces (key, shape) pairs by views of the reloaded copies.
    method RestoreGroup(g: nat, mapping: map<Key, seq<int>>) returns (r: Outcome<()>)
      modifies `tensorTagToState
      ensures r.Ok? <==> AllRecoverable(mapping, old(tensorTagToState), g)
      ensures r.Err? ==> r.error == Unrecoverable
      ensures r.Ok? ==> tensorTagToState == Restored(mapping, old(tensorTagToState), g)
    {
      var slots := tensorTagToState;
      var todo := slots.Keys;
      while todo != {}
        invariant todo <= slots.Keys == tensorTagToState.Keys
        invariant forall tag :: tag in slots && tag.group == g && tag !in todo ==> Recoverable(mapping, slots[tag])
        invariant forall tag :: tag in slots ==>
                    tensorTagToState[tag] ==
                    if tag in todo || tag.group != g then slots[tag] else Recovered(mapping, slots[tag])
      {
        var tag :| tag in todo;
        todo := todo - {tag};
        if tag.group == g && slots[tag].OffDevice? {
          var key, shape := slots[tag].key, slots[tag].shape;
          if key !in mapping || |mapping[key]| != Numel(shape) {
            assert !Recoverable(mapping, slots[tag]);
            return Err(Unrecoverable);
          }
          tensorTagToState := tensorTagToState[tag := OnDevice(Tensor(Reloaded(key), shape, mapping[key], false))];
        }
      }
      r := Ok(());
    }

    method BulkReloadGroup(g: nat) returns (r: Outcome<()>)
      requires Valid()
      modifies this
      ensures Valid()
      ensures BulkReload(numOffloadGroup, old(Abstract()), g) == Ended(r, Abstract())
    {
      if g >= numOffloadGroup {
        return Err(ReloadOutOfRange);
      }
      if g !in groupOffloadMapping {
        return Err(NoBackup);
      }
      var mapping := groupOffloadMapping[g];
      groupOffloadMapping := groupOffloadMapping - {g};
      r := RestoreGroup(g, mapping);
      if r.Err? {
        return;
      }
      if mapping != map[] {
        streams := streams.Issue(HostToDevice, CopyIn(g));
      }
      r := Ok(());
    }

    // The block of on_group_commit_backward under the guard that a window opens now.
    method OpenCurrentWindow() returns (r: Outcome<()>)
      requires Valid() && offloadedGroupCount > 0
      modifies this
      ensures Valid()
      ensures OpenWindow(numOffloadGroup, old(Abstract())) == Ended(r, Abstract())
    {
      streams := streams.Wait(HostToDevice, Compute);
      streams := streams.Wait(Compute, HostToDevice);
      r := BulkReloadGroup(offloadedGroupCount - 1);
      if r.Err? {
        return;
      }
      offloadedGroupCount := offloadedGroupCount - (if offloadedGroupCount > 1 then 1 else 0);
    }

    method OnGroupCommitBackward() returns (r: Outcome<()>)
      requires Valid()
      modifies this
      ensures Valid()
      ensures CommitBackward(numOffloadGroup, numLayers, old(Abstract())) == Ended(r, Abstract())
    {
      if currentGroup == 0 {
        return Err(NegativeGroup);
      }
      currentGroup := currentGroup - 1;
      if offloadedGroupCount - 1 !in layerWindowMap {
        return Err(NoWindow);
      }
      if layerWindowMap[offloadedGroupCount - 1] == currentGroup {
        r := OpenCurrentWindow();
        if r.Err? {
          return;
        }
      }
      if currentGroup == 0 {
        streams := streams.Wait(Compute, HostToDevice);
        offloadedGroupCount := 0;
      }
      r := Ok(());
    }
  }
}
