/** What every reachable state of the asynchronous handler satisfies, one transition at a time.
    `live` maps each tag that has been pushed and not yet popped to the tensor that was pushed under it. */
module OffloadInvariant {
  import opened Arithmetic
  import opened OffloadWindow
  import opened OffloadModel

  type Backups = map<int, map<Key, seq<int>>>

  // Forward(g): forward commits 0..g-1 have run.  Backward(g): backward commits l-1..g have run.
  datatype Phase = Forward(g: nat) | Backward(g: nat)

  predicate InRange(l: nat, ph: Phase) {
    if ph.Forward? then ph.g <= l else ph.g < l
  }

  // ------------------------------------------------------------------ slots, backups and buffers

  // Groups 0..Top-1 have host copies.
  function Top(n: nat, l: nat, ph: Phase): int
    requires n > 0
  {
    var c := Closed(n, l, ph.g);
    if ph.Backward? then c else if ph.g == 0 then 0 else Min(n, c + 1)
  }

  // The first `top` groups are off the device.  With n == l the offload of a later group is issued
  // before the group is pushed, and moves nothing.
  predicate OnHost(n: nat, l: nat, top: int, k: int) {
    0 <= k < top && (n < l || k == 0)
  }

  ghost predicate LiveOk(l: nat, ph: Phase, live: map<Tag, Tensor>) {
    && (forall tag :: tag in live ==> WellFormed(live[tag]))
    && (forall tag :: tag in live ==> tag.group < l && tag.group <= ph.g)
    && (forall a, b :: a in live && b in live && a.group == b.group && live[a].key == live[b].key
          ==> live[a].data == live[b].data)
  }

  ghost predicate CountersOk(n: nat, l: nat, ph: Phase, live: map<Tag, Tensor>, s: State)
    requires n > 0
  {
    var c := Closed(n, l, ph.g);
    && s.current == ph.g
    && s.offloaded == (if ph.Forward? then c else if ph.g == 0 then 0 else if c == 0 then 1 else c)
    && (ph.Forward? ==> forall tag :: tag in live && tag.group == ph.g ==> tag.index < s.count)
    && (ph.Backward? || ph.g == l ==> s.count == 0)
  }

  // `exact` tells that a device entry is the very tensor that was pushed, not a reloaded equal one.
  ghost predicate SlotOk(n: nat, l: nat, top: int, exact: bool, group: nat, t: Tensor, slot: Slot, backups: Backups) {
    if OnHost(n, l, top, group) then
      && slot == OffDevice(t.key, t.shape)
      && group in backups && t.key in backups[group] && backups[group][t.key] == t.data
    else
      slot.OnDevice? && SameValue(slot.tensor, t) && (exact ==> slot.tensor == t)
  }

  ghost predicate SlotsOk(n: nat, l: nat, top: int, exact: bool, live: map<Tag, Tensor>, slots: map<Tag, Slot>,
                          backups: Backups)
  {
    && slots.Keys == live.Keys
    && (forall tag :: tag in live ==> SlotOk(n, l, top, exact, tag.group, live[tag], slots[tag], backups))
  }

  ghost predicate BackupsOk(n: nat, l: nat, top: int, backups: Backups) {
    && (forall k :: k in backups <==> 0 <= k < top)
    && (n == l ==> forall k :: k in backups && k != 0 ==> backups[k] == map[])
  }

  // The buffers of the first `freed` groups have been released.
  ghost predicate BufsOk(n: nat, freed: int, live: map<Tag, Tensor>, bufs: map<Tag, Buffer>) {
    && (forall tag :: tag in bufs <==> tag in live && tag.group < n)
    && (forall tag :: tag in bufs ==> bufs[tag] == if tag.group < freed then Freed else Held(live[tag]))
  }

  function FreedCount(n: nat, l: nat, ph: Phase): nat
    requires n > 0
  {
    if ph.Backward? then n else Closed(n, l, ph.g)
  }

  // ------------------------------------------------------------------ streams

  const NOTHING := -1

  function Home(kind: Kind): Stream {
    match kind
    case CopyOut(_) => DeviceToHost
    case CopyIn(_) => HostToDevice
    case _ => Compute
  }

  // The ordering that makes the copies safe, between operations on one group.
  predicate MustFollow(later: Kind, earlier: Kind) {
    later.group == earlier.group &&
    match later
    case CopyOut(_) => earlier.Produce?
    case Free(_) => earlier.CopyOut?
    case CopyIn(_) => earlier.CopyOut? || earlier.Free?
    case Use(_) => earlier.CopyIn? || earlier.Produce?
    case Produce(_) => false
  }

  ghost predicate SafeTrace(trace: seq<Op>) {
    forall i, j :: 0 <= j < i < |trace| && MustFollow(trace[i].kind, trace[j].kind) ==> j in trace[i].after
  }

  // The copies not yet ordered before the next compute operation: at most those of one group each way.
  predicate Pending(out: int, back: int, kind: Kind) {
    match kind
    case CopyOut(k) => k == out
    case CopyIn(k) => k == back
    case _ => false
  }

  ghost predicate StreamsOk(n: nat, l: nat, out: int, back: int, st: Streams) {
    && SafeTrace(st.trace)
    && (forall i :: 0 <= i < |st.trace| ==> i in st.Known(Home(st.trace[i].kind)))
    && (forall i :: 0 <= i < |st.trace| && !Pending(out, back, st.trace[i].kind) ==> i in st.Known(Compute))
    && (forall i :: 0 <= i < |st.trace| && (st.trace[i].kind.CopyOut? || st.trace[i].kind.CopyIn?)
          ==> st.trace[i].kind.group < n && (n == l ==> st.trace[i].kind.group == 0))
  }

  function PendingOut(n: nat, l: nat, ph: Phase): int
    requires n > 0
  {
    if ph.Forward? then Closed(n, l, ph.g) else NOTHING
  }

  function PendingBack(n: nat, l: nat, ph: Phase): int
    requires n > 0
  {
    if ph.Backward? && ph.g > 0 then Closed(n, l, ph.g) else NOTHING
  }

  ghost predicate Inv(n: nat, l: nat, ph: Phase, live: map<Tag, Tensor>, s: State)
    requires n > 0
  {
    && InRange(l, ph)
    && LiveOk(l, ph, live)
    && CountersOk(n, l, ph, live, s)
    && SlotsOk(n, l, Top(n, l, ph), ph.Forward?, live, s.slots, s.backups)
    && BackupsOk(n, l, Top(n, l, ph), s.backups)
    && BufsOk(n, FreedCount(n, l, ph), live, s.bufs)
    && StreamsOk(n, l, PendingOut(n, l, ph), PendingBack(n, l, ph), s.streams)
  }

  // ------------------------------------------------------------------ stream lemmas

  lemma IssueCompute(n: nat, l: nat, out: int, back: int, st: Streams, kind: Kind)
    requires StreamsOk(n, l, out, back, st) && Home(kind) == Compute
    requires forall i :: 0 <= i < |st.trace| && MustFollow(kind, st.trace[i].kind) ==>
               !Pending(out, back, st.trace[i].kind)
    ensures StreamsOk(n, l, out, back, st.Issue(Compute, kind))
  {
  }

  lemma IssueCopy(n: nat, l: nat, out: int, back: int, st: Streams, kind: Kind)
    requires StreamsOk(n, l, NOTHING, NOTHING, st) || (kind.CopyOut? && StreamsOk(n, l, out, back, st))
    requires (kind.CopyOut? && kind.group == out) || (kind.CopyIn? && kind.group == back)
    requires forall i :: 0 <= i < |st.trace| && MustFollow(kind, st.trace[i].kind) ==> i in st.Known(Home(kind))
    requires kind.group < n && (n == l ==> kind.group == 0)
    ensures StreamsOk(n, l, out, back, st.Issue(Home(kind), kind))
  {
  }

  lemma WaitKeeps(n: nat, l: nat, out: int, back: int, st: Streams, a: Stream, b: Stream)
    requires StreamsOk(n, l, out, back, st)
    ensures StreamsOk(n, l, out, back, st.Wait(a, b))
    ensures st.Wait(a, b).Known(b) <= st.Wait(a, b).Known(a)
    ensures a == Compute && b == DeviceToHost ==> StreamsOk(n, l, NOTHING, back, st.Wait(a, b))
    ensures a == Compute && b == HostToDevice ==> StreamsOk(n, l, out, NOTHING, st.Wait(a, b))
  {
  }

  // ------------------------------------------------------------------ push and pop

  lemma GroupStaysOnDevice(n: nat, l: nat, g: nat)
    requires 0 < n <= l && g < l
    ensures !OnHost(n, l, Top(n, l, Forward(g)), g)
    ensures !OnHost(n, l, Top(n, l, Backward(g)), g)
    ensures n < l && g > 0 ==> g > Closed(n, l, g)
  {
    ClosedBehind(n, l, g);
  }

  lemma PushTracked(n: nat, l: nat, top: int, freed: int, live: map<Tag, Tensor>, slots: map<Tag, Slot>,
                    bufs: map<Tag, Buffer>, backups: Backups, tag: Tag, t: Tensor)
    requires SlotsOk(n, l, top, true, live, slots, backups) && BufsOk(n, freed, live, bufs)
    requires tag !in live && !OnHost(n, l, top, tag.group) && freed <= tag.group
    ensures SlotsOk(n, l, top, true, live[tag := t], slots[tag := OnDevice(t)], backups)
    ensures BufsOk(n, freed, live[tag := t], if tag.group < n then bufs[tag := Held(t)] else bufs)
  {
    assert slots[tag := OnDevice(t)].Keys == live[tag := t].Keys;
  }

  lemma PushLive(l: nat, g: nat, live: map<Tag, Tensor>, tag: Tag, t: Tensor)
    requires LiveOk(l, Forward(g), live) && g < l && tag.group == g && WellFormed(t)
    requires forall a :: a in live && a.group == g && live[a].key == t.key ==> live[a].data == t.data
    ensures LiveOk(l, Forward(g), live[tag := t])
  {
  }

  lemma PushKeeps(n: nat, l: nat, g: nat, live: map<Tag, Tensor>, s: State, t: Tensor)
    requires 0 < n <= l && g < l && Inv(n, l, Forward(g), live, s)
    requires WellFormed(t) && !t.stray
    requires forall a :: a in live && a.group == g && live[a].key == t.key ==> live[a].data == t.data
    ensures var tag := Tag(g, s.count);
            var r := Push(n, s, t, true);
            tag !in live && r.Ok? && r.value.1 == Tagged(tag) && Inv(n, l, Forward(g), live[tag := t], r.value.0)
  {
    GroupStaysOnDevice(n, l, g);
    ClosedBehind(n, l, g);
    IssueCompute(n, l, Closed(n, l, g), NOTHING, s.streams, Produce(g));
    var tag := Tag(g, s.count);
    assert tag !in live && tag !in s.slots;
    PushLive(l, g, live, tag, t);
    PushTracked(n, l, Top(n, l, Forward(g)), Closed(n, l, g), live, s.slots, s.bufs, s.backups, tag, t);
  }

  lemma PopKeeps(n: nat, l: nat, g: nat, live: map<Tag, Tensor>, s: State, tag: Tag)
    requires 0 < n <= l && Inv(n, l, Backward(g), live, s)
    requires tag in live && tag.group == g
    ensures var r := Pop(s, Tagged(tag));
            r.Ok? && SameValue(r.value.1, live[tag]) && Inv(n, l, Backward(g), live - {tag}, r.value.0)
  {
    GroupStaysOnDevice(n, l, g);
    assert SlotOk(n, l, Top(n, l, Backward(g)), false, g, live[tag], s.slots[tag], s.backups);
    var back := PendingBack(n, l, Backward(g));
    ClosedBehind(n, l, g);
    IssueCompute(n, l, NOTHING, back, s.streams, Use(g));
  }

  // ------------------------------------------------------------------ bulk offload and reload

  lemma OffloadSlot(n: nat, l: nat, top: nat, live: map<Tag, Tensor>, slots: map<Tag, Slot>, backups: Backups, tag: Tag)
    requires n <= l && SlotsOk(n, l, top, true, live, slots, backups) && tag in live
    requires SharedStorage(slots, top)
    requires n == l && top > 0 ==> tag !in TagsOf(slots, top)
    ensures tag.group == top ==> slots[tag].OnDevice?
    ensures SlotOk(n, l, top + 1, true, tag.group, live[tag], MovedOff(slots, top)[tag],
                   backups[top := BackupOf(slots, top)])
  {
    assert SlotOk(n, l, top, true, tag.group, live[tag], slots[tag], backups);
    if tag.group == top {
      assert tag in TagsOf(slots, top);
      BackupHolds(slots, top, tag);
    }
  }

  // Offloading group `top` extends the prefix of groups on the host by one.
  lemma OffloadNext(n: nat, l: nat, top: nat, live: map<Tag, Tensor>, slots: map<Tag, Slot>, backups: Backups)
    requires n <= l && SlotsOk(n, l, top, true, live, slots, backups) && BackupsOk(n, l, top, backups)
    requires SharedStorage(slots, top)
    requires n == l && top > 0 ==> TagsOf(slots, top) == {}
    ensures !AnyOff(slots, top)
    ensures SlotsOk(n, l, top + 1, true, live, MovedOff(slots, top), backups[top := BackupOf(slots, top)])
    ensures BackupsOk(n, l, top + 1, backups[top := BackupOf(slots, top)])
  {
    hide SlotOk, BackupOf, SharedStorage;
    forall tag | tag in live
      ensures tag.group == top ==> slots[tag].OnDevice?
      ensures SlotOk(n, l, top + 1, true, tag.group, live[tag], MovedOff(slots, top)[tag],
                     backups[top := BackupOf(slots, top)])
    {
      OffloadSlot(n, l, top, live, slots, backups, tag);
    }
    assert MovedOff(slots, top).Keys == live.Keys;
    BackupsNext(n, l, top, slots, backups);
  }

  lemma BackupsNext(n: nat, l: nat, top: nat, slots: map<Tag, Slot>, backups: Backups)
    requires BackupsOk(n, l, top, backups) && (n == l && top > 0 ==> TagsOf(slots, top) == {})
    ensures BackupsOk(n, l, top + 1, backups[top := BackupOf(slots, top)])
  {
    if n == l && top > 0 {
      forall tag | tag in slots
        ensures tag.group != top
      {
        assert tag.group == top ==> tag in TagsOf(slots, top);
      }
      assert KeysOf(slots, top) == {};
    }
  }

  // The assumption on the pushed tensors, seen in the handler's dictionary.
  lemma LiveIsShared(n: nat, l: nat, top: int, ph: Phase, live: map<Tag, Tensor>, slots: map<Tag, Slot>,
                     backups: Backups, g: int)
    requires LiveOk(l, ph, live) && SlotsOk(n, l, top, true, live, slots, backups)
    ensures SharedStorage(slots, g)
  {
    forall tag | tag in TagsOf(slots, g) && slots[tag].OnDevice?
      ensures slots[tag] == OnDevice(live[tag])
    {
      assert SlotOk(n, l, top, true, tag.group, live[tag], slots[tag], backups);
    }
  }

  // The host copy filed under a tensor's key holds that tensor's data.
  lemma BackupHolds(slots: map<Tag, Slot>, g: int, tag: Tag)
    requires SharedStorage(slots, g) && tag in slots && tag.group == g && slots[tag].OnDevice?
    ensures var key := slots[tag].tensor.key;
            key in BackupOf(slots, g) && BackupOf(slots, g)[key] == slots[tag].tensor.data
  {
    var key := slots[tag].tensor.key;
    assert key in KeysOf(slots, g);
    var rep := Representative(slots, g, key);
    assert tag in TagsOf(slots, g);
  }

  // Reloading the last group on the host undoes that, up to the storage the tensors live in.
  lemma ReloadLast(n: nat, l: nat, top: nat, ph: Phase, exact: bool, live: map<Tag, Tensor>, s: State)
    requires 0 < top <= n <= l
    requires LiveOk(l, ph, live) && SlotsOk(n, l, top, exact, live, s.slots, s.backups)
             && BackupsOk(n, l, top, s.backups)
    ensures var r := BulkReload(n, s, top - 1);
            r.Ok? && SlotsOk(n, l, top - 1, false, live, r.value.slots, r.value.backups)
            && BackupsOk(n, l, top - 1, r.value.backups)
  {
    var g := top - 1;
    forall tag | tag in s.slots && tag.group == g
      ensures Recoverable(s.backups[g], s.slots[tag])
    {
      assert SlotOk(n, l, top, exact, tag.group, live[tag], s.slots[tag], s.backups);
    }
    var s' := BulkReload(n, s, g).value;
    forall tag | tag in live
      ensures SlotOk(n, l, top - 1, false, tag.group, live[tag], s'.slots[tag], s'.backups)
    {
      assert SlotOk(n, l, top, exact, tag.group, live[tag], s.slots[tag], s.backups);
    }
  }

  // ------------------------------------------------------------------ forward commit

  // The state between the two blocks of a forward commit, and after them: `top` groups on the host,
  // `freed` groups released, group `out` possibly still being copied.
  ghost predicate Committing(n: nat, l: nat, g: nat, top: int, freed: int, out: int, live: map<Tag, Tensor>,
                             slots: map<Tag, Slot>, backups: Backups, bufs: map<Tag, Buffer>, st: Streams)
  {
    && LiveOk(l, Forward(g), live)
    && SlotsOk(n, l, top, true, live, slots, backups)
    && BackupsOk(n, l, top, backups)
    && BufsOk(n, freed, live, bufs)
    && StreamsOk(n, l, out, NOTHING, st)
  }

  lemma WaitedProducers(n: nat, l: nat, out: int, back: int, st: Streams)
    requires StreamsOk(n, l, out, back, st)
    ensures ProducersKnown(st.Wait(DeviceToHost, Compute))
  {
  }

  lemma KickstartKeeps(n: nat, l: nat, g: nat, live: map<Tag, Tensor>, s: State)
    requires 0 < n <= l && g < l && Inv(n, l, Forward(g), live, s)
    ensures var c := Closed(n, l, g);
            var r := Kickstart(s);
            s.current == g && r.Ok? && r.value.offloaded == c && r.value.current == g
            && Committing(n, l, g, Min(n, c + 1), c, c, live, r.value.slots, r.value.backups, r.value.bufs,
                r.value.streams)
  {
    hide LiveOk, SlotsOk, BackupsOk, BufsOk, StreamsOk, BulkOffload;
    if g == 0 {
      WaitKeeps(n, l, 0, NOTHING, s.streams, DeviceToHost, Compute);
      assert ProducersKnown(s.streams.Wait(DeviceToHost, Compute)) by {
        WaitedProducers(n, l, 0, NOTHING, s.streams);
      }
      var s1 := s.(streams := s.streams.Wait(DeviceToHost, Compute));
      OffloadFrom(n, l, 0, 0, 0, live, s1);
    }
  }

  // One bulk offload inside a commit.
  lemma OffloadFrom(n: nat, l: nat, g: nat, top: nat, freed: int, live: map<Tag, Tensor>, s: State)
    requires top < n <= l && Committing(n, l, g, top, freed, top, live, s.slots, s.backups, s.bufs, s.streams)
    requires n == l && top > 0 ==> top > g
    requires ProducersKnown(s.streams)
    ensures SharedStorage(s.slots, top)
    ensures var r := BulkOffload(s, top);
            r.Ok? && r.value.offloaded == s.offloaded && r.value.current == s.current
            && Committing(n, l, g, top + 1, freed, top, live, r.value.slots, r.value.backups, r.value.bufs,
                r.value.streams)
  {
    LiveIsShared(n, l, top, Forward(g), live, s.slots, s.backups, top);
    OffloadNext(n, l, top, live, s.slots, s.backups);
    if AnyIn(s.slots, top) {
      var tag :| tag in s.slots && tag.group == top;
      assert n == l ==> top == 0;
      IssueCopy(n, l, top, NOTHING, s.streams, CopyOut(top));
    }
  }

  ghost predicate ProducersKnown(st: Streams) {
    forall i :: 0 <= i < |st.trace| && st.trace[i].kind.Produce? ==> i in st.Known(DeviceToHost)
  }

  lemma UncoverKeeps(n: nat, l: nat, g: nat, top: int, c: nat, live: map<Tag, Tensor>, s: State)
    requires Committing(n, l, g, top, c, c, live, s.slots, s.backups, s.bufs, s.streams) && s.offloaded == c
    ensures var u := Uncover(s);
            u.offloaded == s.offloaded && u.current == s.current && ProducersKnown(u.streams)
            && Committing(n, l, g, top, c + 1, c + 1, live, u.slots, u.backups, u.bufs, u.streams)
  {
    WaitKeeps(n, l, c, NOTHING, s.streams, DeviceToHost, Compute);
    var st := s.streams.Wait(DeviceToHost, Compute);
    WaitKeeps(n, l, c, NOTHING, st, Compute, DeviceToHost);
    IssueCompute(n, l, NOTHING, NOTHING, st.Wait(Compute, DeviceToHost), Free(c));
    assert BufsOk(n, c + 1, live, Released(s.bufs, c));
  }

  lemma CloseWindowKeeps(n: nat, l: nat, g: nat, c: nat, live: map<Tag, Tensor>, s: State)
    requires c < n <= l && (n == l ==> c == g)
    requires Committing(n, l, g, c + 1, c, c, live, s.slots, s.backups, s.bufs, s.streams) && s.offloaded == c
    ensures var r := CloseWindow(n, s);
            r.Ok? && r.value.offloaded == c + 1 && r.value.current == s.current
            && Committing(n, l, g, Min(n, c + 2), c + 1, c + 1, live,
                          r.value.slots, r.value.backups, r.value.bufs, r.value.streams)
  {
    hide Committing, ProducersKnown, BulkOffload, Uncover;
    UncoverKeeps(n, l, g, c + 1, c, live, s);
    if c < n - 1 {
      OffloadFrom(n, l, g, c + 1, c + 1, live, Uncover(s));
    }
  }

  lemma SynchronizeKeeps(n: nat, l: nat, g: nat, live: map<Tag, Tensor>, s: State)
    requires 0 < n <= l && g < l && Inv(n, l, Forward(g), live, s)
    ensures var c := Closed(n, l, g + 1);
            var r := Synchronize(n, l, s);
            r.Ok? && r.value.offloaded == c && r.value.current == g
            && Committing(n, l, g, Min(n, c + 1), c, c, live, r.value.slots, r.value.backups, r.value.bufs,
                r.value.streams)
  {
    hide Committing, Inv, Kickstart, CloseWindow;
    KickstartKeeps(n, l, g, live, s);
    ClosedAtEnd(n, l, g);
    ClosedBehind(n, l, g);
    var c := Closed(n, l, g);
    if Window(n, l, c) == g {
      CloseWindowKeeps(n, l, g, c, live, Kickstart(s).value);
    }
  }

  lemma CommittingDone(n: nat, l: nat, g: nat, live: map<Tag, Tensor>, s: State)
    requires 0 < n <= l && g < l
    requires var c := Closed(n, l, g + 1);
             s.offloaded == c && Committing(n, l, g, Min(n, c + 1), c, c, live, s.slots, s.backups, s.bufs, s.streams)
    ensures Inv(n, l, Forward(g + 1), live, s.(current := g + 1, count := 0))
  {
    hide SlotsOk, BackupsOk, BufsOk, StreamsOk;
  }

  lemma CommitForwardKeeps(n: nat, l: nat, g: nat, live: map<Tag, Tensor>, s: State)
    requires 0 < n <= l && g < l && Inv(n, l, Forward(g), live, s)
    ensures var r := CommitForward(n, l, s);
            r.Ok? && Inv(n, l, Forward(g + 1), live, r.value)
  {
    hide Inv, Committing, Synchronize;
    SynchronizeKeeps(n, l, g, live, s);
    CommittingDone(n, l, g, live, Synchronize(n, l, s).value);
  }

  // ------------------------------------------------------------------ backward commit

  // The copies issued by a backward commit follow everything the compute stream has done.
  lemma ReloadStreams(n: nat, l: nat, ph: Phase, st: Streams, top: nat, some: bool)
    requires 0 < n <= l && ph.g > 0 && InRange(l, ph) && 0 < top <= n
    requires StreamsOk(n, l, PendingOut(n, l, ph), PendingBack(n, l, ph), st)
    requires ph.Forward? ==> ph.g == l
    requires some && n == l ==> top == 1
    ensures var waited := st.Wait(HostToDevice, Compute).Wait(Compute, HostToDevice);
            StreamsOk(n, l, NOTHING, top - 1, if some then waited.Issue(HostToDevice, CopyIn(top - 1)) else waited)
  {
    var out, back := PendingOut(n, l, ph), PendingBack(n, l, ph);
    ClosedAtEnd(n, l, l);
    WaitKeeps(n, l, out, back, st, HostToDevice, Compute);
    var st1 := st.Wait(HostToDevice, Compute);
    WaitKeeps(n, l, out, back, st1, Compute, HostToDevice);
    if some {
      IssueCopy(n, l, NOTHING, top - 1, st1.Wait(Compute, HostToDevice), CopyIn(top - 1));
    }
  }

  // The state inside a backward commit: `top` groups still on the host, group `back` possibly being copied.
  ghost predicate Returning(n: nat, l: nat, top: int, back: int, live: map<Tag, Tensor>,
                            slots: map<Tag, Slot>, backups: Backups, bufs: map<Tag, Buffer>, st: Streams)
  {
    && SlotsOk(n, l, top, false, live, slots, backups)
    && BackupsOk(n, l, top, backups)
    && BufsOk(n, n, live, bufs)
    && StreamsOk(n, l, NOTHING, back, st)
  }

  lemma OpenWindowKeeps(n: nat, l: nat, ph: Phase, live: map<Tag, Tensor>, s: State)
    requires 0 < n <= l && ph.g > 0 && (ph.Forward? ==> ph.g == l)
    requires Inv(n, l, ph, live, s) && s.offloaded == Closed(n, l, ph.g) > 0
    ensures var c := Closed(n, l, ph.g);
            var r := OpenWindow(n, s.(current := ph.g - 1));
            r.Ok? && r.value.current == ph.g - 1 && r.value.count == s.count
            && r.value.offloaded == (if c > 1 then c - 1 else c)
            && Returning(n, l, c - 1, c - 1, live, r.value.slots, r.value.backups, r.value.bufs, r.value.streams)
  {
    hide StreamsOk, Pending, SlotOk, LiveOk;
    var c := Closed(n, l, ph.g);
    ClosedAtEnd(n, l, ph.g);
    SlotsForget(n, l, c, ph.Forward?, live, s.slots, s.backups);
    var waited := s.streams.Wait(HostToDevice, Compute).Wait(Compute, HostToDevice);
    ReloadStreams(n, l, ph, s.streams, c, s.backups[c - 1] != map[]);
    ReloadLast(n, l, c, ph, false, live, s.(current := ph.g - 1, streams := waited));
  }

  lemma SlotsForget(n: nat, l: nat, top: int, exact: bool, live: map<Tag, Tensor>, slots: map<Tag, Slot>,
                    backups: Backups)
    requires SlotsOk(n, l, top, exact, live, slots, backups)
    ensures SlotsOk(n, l, top, false, live, slots, backups)
  {
  }

  lemma FinishKeeps(n: nat, l: nat, g: nat, live: map<Tag, Tensor>, s: State)
    requires 0 < n <= l && g < l && LiveOk(l, Backward(g), live)
    requires s.current == g && s.count == 0
    requires var c := Closed(n, l, g);
             s.offloaded == (if c == 0 then 1 else c)
             && Returning(n, l, c, c, live, s.slots, s.backups, s.bufs, s.streams)
    ensures Inv(n, l, Backward(g), live, Finish(s))
  {
    hide StreamsOk, SlotsOk, BackupsOk, BufsOk, LiveOk;
    if g == 0 {
      WaitKeeps(n, l, NOTHING, 0, s.streams, Compute, HostToDevice);
    }
  }

  lemma StayKeeps(n: nat, l: nat, g: nat, live: map<Tag, Tensor>, s: State)
    requires 0 < n <= l && 0 < g < l && Inv(n, l, Backward(g), live, s)
    ensures var c := Closed(n, l, g);
            Returning(n, l, c, c, live, s.slots, s.backups, s.bufs, s.streams)
  {
    hide StreamsOk, SlotsOk, BackupsOk, BufsOk, LiveOk;
  }

  lemma EnterBackward(n: nat, l: nat, ph: Phase, live: map<Tag, Tensor>, s: State)
    requires 0 < n <= l && Inv(n, l, ph, live, s)
    requires ph.g > 0 && (ph == Forward(l) || (ph.Backward? && forall tag :: tag in live ==> tag.group < ph.g))
    ensures LiveOk(l, Backward(ph.g - 1), live)
    ensures ph.g <= l && s.current == ph.g && s.count == 0
    ensures s.offloaded == if Closed(n, l, ph.g) == 0 then 1 else Closed(n, l, ph.g)
  {
    hide SlotsOk, BackupsOk, BufsOk, StreamsOk;
    ClosedAtEnd(n, l, l);
  }

  lemma CommitBackwardKeeps(n: nat, l: nat, ph: Phase, live: map<Tag, Tensor>, s: State)
    requires 0 < n <= l && Inv(n, l, ph, live, s)
    requires ph.g > 0 && (ph == Forward(l) || (ph.Backward? && forall tag :: tag in live ==> tag.group < ph.g))
    ensures var r := CommitBackward(n, l, s);
            r.Ok? && Inv(n, l, Backward(ph.g - 1), live, r.value)
  {
    hide Inv, Returning, OpenWindow, Finish, LiveOk, Closed, Window;
    var g := ph.g - 1;
    EnterBackward(n, l, ph, live, s);
    ClosedReverse(n, l, g);
    ClosedAtEnd(n, l, ph.g);
    if Window(n, l, s.offloaded - 1) == g {
      OpenWindowKeeps(n, l, ph, live, s);
      FinishKeeps(n, l, g, live, OpenWindow(n, s.(current := g)).value);
    } else {
      StayKeeps(n, l, ph.g, live, s);
      FinishKeeps(n, l, g, live, s.(current := g));
    }
  }
}
