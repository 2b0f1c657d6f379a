/** Values and transitions of the two activation-offload handlers: what each handler method does to the
    handler's dictionaries and counters, and which asynchronous operations it issues. */
module OffloadModel {
  import opened Wrappers
  import opened OffloadWindow

  // -------------------------------------------------------------------- tensors

  // A reloaded tensor lives in fresh storage, named after the storage it was copied from.
  datatype Key = Storage(address: int, dtype: int) | Reloaded(of: Key)

  datatype Tensor = Tensor(key: Key, shape: seq<nat>, data: seq<int>, stray: bool)

  function Numel(shape: seq<nat>): nat {
    if shape == [] then 1 else shape[0] * Numel(shape[1..])
  }

  lemma NumelOne(n: nat)
    ensures Numel([]) == 1 && Numel([n]) == n
  {
    assert [n][1..] == [];
  }

  lemma {:induction false} NumelConcat(s: seq<nat>, t: seq<nat>)
    ensures Numel(s + t) == Numel(s) * Numel(t)
  {
    if s == [] {
      assert s + t == t;
    } else {
      NumelConcat(s[1..], t);
      assert (s + t)[0] == s[0] && (s + t)[1..] == s[1..] + t;
    }
  }

  predicate WellFormed(t: Tensor) {
    |t.data| == Numel(t.shape)
  }

  // Equal data and shape; the storage may differ.
  predicate SameValue(t: Tensor, u: Tensor) {
    t.shape == u.shape && t.data == u.data
  }

  // -------------------------------------------------------------------- streams

  datatype Stream = Compute | DeviceToHost | HostToDevice

  datatype Kind = Produce(group: nat) | CopyOut(group: nat) | Free(group: nat) | CopyIn(group: nat) | Use(group: nat)

  // One issued operation; `after` holds the trace positions of the operations that happen before it.
  datatype Op = Op(kind: Kind, stream: Stream, after: set<nat>)

  // The trace, and what is ordered before the next operation of each stream.
  datatype Streams = Streams(trace: seq<Op>, known: map<Stream, set<nat>>) {
    function Known(s: Stream): set<nat> {
      if s in known then known[s] else {}
    }

    function Issue(s: Stream, kind: Kind): Streams {
      Streams(trace + [Op(kind, s, Known(s))], known[s := Known(s) + {|trace|}])
    }

    // s.wait_stream(other): later operations of s run after everything issued on other so far.
    function Wait(s: Stream, other: Stream): Streams {
      Streams(trace, known[s := Known(s) + Known(other)])
    }
  }

  // -------------------------------------------------------------------- the asynchronous handler

  datatype Tag = Tag(group: nat, index: nat)

  // What tensor_push returns: a tag, or the tensor itself when it is not to be offloaded.
  datatype Handle = Tagged(tag: Tag) | Untracked(tensor: Tensor)

  // An entry of tensor_tag_to_state: a device tensor, or the (key, shape) pair of an offloaded one.
  datatype Slot = OnDevice(tensor: Tensor) | OffDevice(key: Key, shape: seq<nat>)

  // An entry of tensor_tag_to_buf: a reference that keeps device memory alive, or None.
  datatype Buffer = Held(tensor: Tensor) | Freed

  datatype Error = TagTaken | UnknownTag | StillOffDevice | AlreadyOffDevice | NoWindow | NegativeGroup
                 | ReloadOutOfRange | NoBackup | Unrecoverable

  type Outcome<T> = Result<T, Error>

  datatype State = State(
    current: nat,
    count: nat,
    offloaded: int,
    slots: map<Tag, Slot>,
    bufs: map<Tag, Buffer>,
    backups: map<int, map<Key, seq<int>>>,
    streams: Streams)

  const NO_STREAMS := Streams([], map[])

  const INITIAL := State(0, 0, 0, map[], map[], map[], NO_STREAMS)

  // Equal to the initial handler up to what the streams have already run.
  predicate IsReset(s: State) {
    s == INITIAL.(streams := s.streams)
  }

  function Push(n: nat, s: State, t: Tensor, need: bool): Outcome<(State, Handle)> {
    if t.stray || !need then Ok((s, Untracked(t)))
    else
      var tag := Tag(s.current, s.count);
      if tag in s.slots then Err(TagTaken)
      else
        Ok((s.(count := s.count + 1,
               slots := s.slots[tag := OnDevice(t)],
               bufs := if s.current < n then s.bufs[tag := Held(t)] else s.bufs,
               streams := s.streams.Issue(Compute, Produce(s.current))),
            Tagged(tag)))
  }

  function Pop(s: State, h: Handle): Outcome<(State, Tensor)> {
    match h
    case Untracked(t) => Ok((s, t))
    case Tagged(tag) =>
      if tag !in s.slots then Err(UnknownTag)
      else if s.slots[tag].OffDevice? then Err(StillOffDevice)
      else
        Ok((s.(slots := s.slots - {tag}, bufs := s.bufs - {tag},
               streams := s.streams.Issue(Compute, Use(tag.group))),
            s.slots[tag].tensor))
  }

  function TagsOf(slots: map<Tag, Slot>, g: int): set<Tag> {
    set tag | tag in slots && tag.group == g
  }

  // Same storage key within a group means the same flattened data.
  ghost predicate SharedStorage(slots: map<Tag, Slot>, g: int) {
    forall a, b :: a in TagsOf(slots, g) && b in TagsOf(slots, g) && slots[a].OnDevice? && slots[b].OnDevice?
                   && slots[a].tensor.key == slots[b].tensor.key
                   ==> slots[a].tensor.data == slots[b].tensor.data
  }

  function KeysOf(slots: map<Tag, Slot>, g: int): set<Key> {
    set tag | tag in slots && tag.group == g && slots[tag].OnDevice? :: slots[tag].tensor.key
  }

  // The tag whose tensor stands for all tensors of group g with this key.
  ghost function Representative(slots: map<Tag, Slot>, g: int, key: Key): (tag: Tag)
    requires key in KeysOf(slots, g)
    ensures tag in TagsOf(slots, g) && slots[tag].OnDevice? && slots[tag].tensor.key == key
  {
    var tag :| tag in slots && tag.group == g && slots[tag].OnDevice? && slots[tag].tensor.key == key;
    tag
  }

  ghost function BackupOf(slots: map<Tag, Slot>, g: int): map<Key, seq<int>> {
    map key | key in KeysOf(slots, g) :: slots[Representative(slots, g, key)].tensor.data
  }

  function Evicted(slot: Slot): Slot {
    if slot.OnDevice? then OffDevice(slot.tensor.key, slot.tensor.shape) else slot
  }

  function MovedOff(slots: map<Tag, Slot>, g: int): map<Tag, Slot> {
    map tag | tag in slots :: if tag.group == g then Evicted(slots[tag]) else slots[tag]
  }

  predicate AnyOff(slots: map<Tag, Slot>, g: int) {
    exists tag :: tag in slots && tag.group == g && slots[tag].OffDevice?
  }

  predicate AnyIn(slots: map<Tag, Slot>, g: int) {
    exists tag :: tag in slots && tag.group == g
  }

  ghost function BulkOffload(s: State, g: int): Outcome<State>
    requires g >= 0
  {
    if AnyOff(s.slots, g) then Err(AlreadyOffDevice)
    else
      Ok(s.(slots := MovedOff(s.slots, g),
            backups := s.backups[g := BackupOf(s.slots, g)],
            streams := if AnyIn(s.slots, g) then s.streams.Issue(DeviceToHost, CopyOut(g)) else s.streams))
  }

  function Released(bufs: map<Tag, Buffer>, g: int): map<Tag, Buffer> {
    map tag | tag in bufs :: if tag.group == g then Freed else bufs[tag]
  }

  // The first group's offload is kicked off at its own commit.
  ghost function Kickstart(s: State): Outcome<State> {
    if s.current == 0 then BulkOffload(s.(streams := s.streams.Wait(DeviceToHost, Compute)), 0) else Ok(s)
  }

  // Drop the device references of the group whose window closes, after its copy has been waited for.
  function Uncover(s: State): State
    requires s.offloaded >= 0
  {
    s.(bufs := Released(s.bufs, s.offloaded),
       streams := s.streams.Wait(DeviceToHost, Compute).Wait(Compute, DeviceToHost)
       .Issue(Compute, Free(s.offloaded)))
  }

  // Then start offloading the next group.
  ghost function CloseWindow(n: nat, s: State): Outcome<State>
    requires s.offloaded >= 0
  {
    if s.offloaded < n - 1 then
      var s1 :- BulkOffload(Uncover(s), s.offloaded + 1);
      Ok(s1.(offloaded := s1.offloaded + 1))
    else
      Ok(Uncover(s).(offloaded := s.offloaded + 1))
  }

  ghost function Synchronize(n: nat, l: nat, s: State): Outcome<State> {
    var s1 :- Kickstart(s);
    if s1.offloaded !in WindowMap(n, l) then Err(NoWindow)
    else if WindowMap(n, l)[s1.offloaded] != s.current then Ok(s1)
    else CloseWindow(n, s1)
  }

  ghost function CommitForward(n: nat, l: nat, s: State): Outcome<State> {
    var s1 :- Synchronize(n, l, s);
    Ok(s1.(current := s1.current + 1, count := 0))
  }

  // The view of a reloaded backup under the remembered shape.
  predicate Recoverable(backup: map<Key, seq<int>>, slot: Slot) {
    slot.OffDevice? ==> slot.key in backup && |backup[slot.key]| == Numel(slot.shape)
  }

  function Recovered(backup: map<Key, seq<int>>, slot: Slot): Slot
    requires Recoverable(backup, slot)
  {
    if slot.OffDevice? then OnDevice(Tensor(Reloaded(slot.key), slot.shape, backup[slot.key], false)) else slot
  }

  predicate AllRecoverable(backup: map<Key, seq<int>>, slots: map<Tag, Slot>, g: int) {
    forall tag :: tag in slots && tag.group == g ==> Recoverable(backup, slots[tag])
  }

  function Restored(backup: map<Key, seq<int>>, slots: map<Tag, Slot>, g: int): map<Tag, Slot>
    requires AllRecoverable(backup, slots, g)
  {
    map tag | tag in slots :: if tag.group == g then Recovered(backup, slots[tag]) else slots[tag]
  }

  function BulkReload(n: nat, s: State, g: int): Outcome<State>
    requires g >= 0
  {
    if g >= n then Err(ReloadOutOfRange)
    else if g !in s.backups then Err(NoBackup)
    else if !AllRecoverable(s.backups[g], s.slots, g) then Err(Unrecoverable)
    else
      Ok(s.(slots := Restored(s.backups[g], s.slots, g),
            backups := s.backups - {g},
            streams := if s.backups[g] == map[] then s.streams else s.streams.Issue(HostToDevice, CopyIn(g))))
  }

  // Reload the group whose window opens, behind everything the compute stream has done.
  function OpenWindow(n: nat, s: State): Outcome<State>
    requires s.offloaded > 0
  {
    var s1 :- BulkReload(n, s.(streams := s.streams.Wait(HostToDevice, Compute).Wait(Compute, HostToDevice)),
                         s.offloaded - 1);
    Ok(s1.(offloaded := if s1.offloaded > 1 then s1.offloaded - 1 else s1.offloaded))
  }

  // The first group waits for all reloads.
  function Finish(s: State): State {
    if s.current == 0 then s.(offloaded := 0, streams := s.streams.Wait(Compute, HostToDevice)) else s
  }

  function CommitBackward(n: nat, l: nat, s: State): Outcome<State> {
    if s.current == 0 then Err(NegativeGroup)
    else
      var s0 := s.(current := s.current - 1);
      if s0.offloaded - 1 !in WindowMap(n, l) then Err(NoWindow)
      else if WindowMap(n, l)[s0.offloaded - 1] != s0.current then Ok(Finish(s0))
      else
        var s1 :- OpenWindow(n, s0);
        Ok(Finish(s1))
  }

  // -------------------------------------------------------------------- the synchronous handler

  // An entry of the synchronous handler's tensor_tag_to_state: a (device, cpu copy) pair or the tensor.
  datatype SyncSlot = OnHost(copy: Tensor) | Kept(tensor: Tensor)

  datatype SyncState = SyncState(current: nat, count: nat, slots: map<Tag, SyncSlot>)

  const SYNC_INITIAL := SyncState(0, 0, map[])

  function SyncPush(n: nat, s: SyncState, t: Tensor, need: bool): Outcome<(SyncState, Tag)> {
    var tag := Tag(s.current, s.count);
    if tag in s.slots then Err(TagTaken)
    else
      var slot := if s.current < n && need then OnHost(t) else Kept(t);
      Ok((s.(count := s.count + 1, slots := s.slots[tag := slot]), tag))
  }

  function SyncPop(s: SyncState, tag: Tag): Outcome<(SyncState, Tensor)> {
    if tag !in s.slots then Err(UnknownTag)
    else
      var t := match s.slots[tag]
        case OnHost(copy) => copy.(key := Reloaded(copy.key))
        case Kept(t) => t;
      Ok((s.(slots := s.slots - {tag}), t))
  }

  function SyncCommitForward(s: SyncState): SyncState {
    s.(current := s.current + 1, count := 0)
  }

  function SyncCommitBackward(s: SyncState): Outcome<SyncState> {
    if s.current == 0 then Err(NegativeGroup) else Ok(s.(current := s.current - 1))
  }
}
