/** Device memory and copies: whatever is held on the device by nothing any more has been copied out, and whatever
    has been copied out is used only behind its copy back.  For any number of groups to be offloaded. */
module OffloadSafety {
  import opened Wrappers
  import opened Arithmetic
  import opened OffloadWindow
  import opened OffloadModel
  import opened OffloadInvariant
  import opened OffloadRuns
  import opened OffloadDelivery

  // ------------------------------------------------------------------ what a safe state and trace hold

  // A device reference keeps the tensor under this tag alive.
  predicate DeviceHolds(s: State, tag: Tag) {
    (tag in s.slots && s.slots[tag].OnDevice?) || (tag in s.bufs && s.bufs[tag].Held?)
  }

  // A tensor no device reference keeps alive was produced, and copied out after that, before anything that the
  // compute stream does from now on.
  ghost predicate MemorySafe(s: State) {
    forall tag :: tag in s.slots && !DeviceHolds(s, tag) ==>
      Produced(s.streams.trace, tag.group) && CopiesKnown(s.streams, Compute, tag.group, CopyOut(tag.group))
  }

  ghost predicate Produced(trace: seq<Op>, k: nat) {
    exists j :: 0 <= j < |trace| && trace[j].kind == Produce(k)
  }

  // Use i waits for a copy in that was issued after copy out m of its group.
  ghost predicate BehindReload(trace: seq<Op>, m: nat, i: nat)
    requires m < i < |trace|
  {
    trace[i].kind.Use? && trace[m].kind == CopyOut(trace[i].kind.group) ==>
      Between(trace, m, i, CopyIn(trace[i].kind.group))
  }

  // The tensors of a group that has left the device are used only behind its copy back.
  ghost predicate UsesBehindReload(trace: seq<Op>) {
    forall m: nat, i: nat :: m < i < |trace| ==> BehindReload(trace, m, i)
  }

  // ------------------------------------------------------------------ what is invariant

  // The groups on the host have been copied out since they were last produced.
  ghost predicate LeftAt(n: nat, l: nat, top: int, trace: seq<Op>, k: nat) {
    && Produced(trace, k)
    && (OffloadInvariant.OnHost(n, l, top, k) ==> forall j: nat :: j < |trace| && trace[j].kind == Produce(k) ==>
          Later(trace, j, CopyOut(k)))
  }

  ghost predicate Left(n: nat, l: nat, top: int, live: map<Tag, Tensor>, trace: seq<Op>) {
    forall tag :: tag in live ==> LeftAt(n, l, top, trace, tag.group)
  }

  // A copy out waits for its reload, or has been reloaded.
  ghost predicate ReturnsAt(top: int, backups: Backups, trace: seq<Op>, m: nat, k: nat) {
    (k < top && HasBackup(backups, k)) || Later(trace, m, CopyIn(k))
  }

  ghost predicate Returns(top: int, backups: Backups, trace: seq<Op>) {
    forall m: nat, k: nat :: m < |trace| && trace[m].kind == CopyOut(k) ==> ReturnsAt(top, backups, trace, m, k)
  }

  ghost predicate Settled(n: nat, l: nat, top: int, live: map<Tag, Tensor>, backups: Backups, trace: seq<Op>) {
    Left(n, l, top, live, trace) && Returns(top, backups, trace) && UsesBehindReload(trace)
  }

  // The invariant and this make every state safe.
  lemma SettledIsSafe(n: nat, l: nat, ph: Phase, live: map<Tag, Tensor>, s: State)
    requires 0 < n <= l && Inv(n, l, ph, live, s) && Left(n, l, Top(n, l, ph), live, s.streams.trace)
    ensures MemorySafe(s)
  {
    hide StreamsOk, Left, LiveOk, Closed, Window;
    forall tag | tag in s.slots && !DeviceHolds(s, tag)
      ensures Produced(s.streams.trace, tag.group)
      ensures CopiesKnown(s.streams, Compute, tag.group, CopyOut(tag.group))
    {
      var top := Top(n, l, ph);
      assert SlotOk(n, l, top, ph.Forward?, tag.group, live[tag], s.slots[tag], s.backups);
      assert tag.group < n && tag.group < FreedCount(n, l, ph);
      LeftHere(n, l, top, live, s.streams.trace, tag);
      CopiesAreKnown(n, l, ph, top, s.streams, tag.group);
    }
  }

  lemma LeftHere(n: nat, l: nat, top: int, live: map<Tag, Tensor>, trace: seq<Op>, tag: Tag)
    requires Left(n, l, top, live, trace) && tag in live
    ensures LeftAt(n, l, top, trace, tag.group)
  {
  }

  // A copy of a group that has been released is not pending.
  lemma CopiesAreKnown(n: nat, l: nat, ph: Phase, top: int, st: Streams, k: nat)
    requires 0 < n && StreamsOk(n, l, PendingOut(n, l, ph), PendingBack(n, l, ph), st)
    requires k < FreedCount(n, l, ph) && OffloadInvariant.OnHost(n, l, top, k) && LeftAt(n, l, top, st.trace, k)
    ensures CopiesKnown(st, Compute, k, CopyOut(k))
  {
    forall j: nat | j < |st.trace| && st.trace[j].kind == Produce(k)
      ensures exists m :: j < m < |st.trace| && st.trace[m].kind == CopyOut(k) && m in st.Known(Compute)
    {
      var m :| j < m < |st.trace| && st.trace[m].kind == CopyOut(k);
      assert !Pending(PendingOut(n, l, ph), PendingBack(n, l, ph), st.trace[m].kind);
    }
  }

  // ------------------------------------------------------------------ issuing

  lemma ProducedKept(trace: seq<Op>, op: Op, k: nat)
    requires Produced(trace, k)
    ensures Produced(trace + [op], k)
  {
    var j :| 0 <= j < |trace| && trace[j].kind == Produce(k);
    assert (trace + [op])[j].kind == Produce(k);
  }

  lemma LeftKept(n: nat, l: nat, top: int, trace: seq<Op>, op: Op, k: nat)
    requires LeftAt(n, l, top, trace, k) && (op.kind == Produce(k) ==> !OffloadInvariant.OnHost(n, l, top, k))
    ensures LeftAt(n, l, top, trace + [op], k)
  {
    var after := trace + [op];
    ProducedKept(trace, op, k);
    if OffloadInvariant.OnHost(n, l, top, k) {
      forall j: nat | j < |after| && after[j].kind == Produce(k)
        ensures Later(after, j, CopyOut(k))
      {
        assert trace[j].kind == Produce(k);
        LaterKept(trace, after, j, CopyOut(k));
      }
    }
  }

  lemma UsesKept(trace: seq<Op>, op: Op)
    requires UsesBehindReload(trace)
    requires op.kind.Use? ==> forall m: nat :: m < |trace| && trace[m].kind == CopyOut(op.kind.group) ==>
               ReloadKnown(trace, op.after, m, op.kind.group)
    ensures UsesBehindReload(trace + [op])
  {
    var after := trace + [op];
    forall m: nat, i: nat | m < i < |after|
      ensures BehindReload(after, m, i)
    {
      if i < |trace| {
        assert BehindReload(trace, m, i);
        if p :| m < p < i && trace[p].kind == CopyIn(trace[i].kind.group) && p in trace[i].after {
          assert after[p] == trace[p] && after[i] == trace[i];
        }
      } else if op.kind.Use? && trace[m].kind == CopyOut(op.kind.group) {
        assert ReloadKnown(trace, op.after, m, op.kind.group);
        var p :| m < p < |trace| && trace[p].kind == CopyIn(op.kind.group) && p in op.after;
        assert after[p] == trace[p];
      }
    }
  }

  // After copy out m a copy in was issued, and it is in the set.
  ghost predicate ReloadKnown(trace: seq<Op>, known: set<nat>, m: nat, k: nat) {
    exists p :: m < p < |trace| && trace[p].kind == CopyIn(k) && p in known
  }

  lemma ReturnsKept(top: int, backups: Backups, trace: seq<Op>, op: Op)
    requires Returns(top, backups, trace) && !op.kind.CopyOut?
    ensures Returns(top, backups, trace + [op])
  {
    var after := trace + [op];
    forall m: nat, k: nat | m < |after| && after[m].kind == CopyOut(k)
      ensures ReturnsAt(top, backups, after, m, k)
    {
      assert trace[m].kind == CopyOut(k);
      assert ReturnsAt(top, backups, trace, m, k);
      LaterKept(trace, after, m, CopyIn(k));
    }
  }

  // ------------------------------------------------------------------ push and pop

  lemma PushSettles(n: nat, l: nat, top: int, live: map<Tag, Tensor>, backups: Backups, trace: seq<Op>, tag: Tag,
                    t: Tensor, op: Op)
    requires Settled(n, l, top, live, backups, trace) && op.kind == Produce(tag.group)
    requires !OffloadInvariant.OnHost(n, l, top, tag.group)
    ensures Settled(n, l, top, live[tag := t], backups, trace + [op])
  {
    forall a | a in live[tag := t]
      ensures LeftAt(n, l, top, trace + [op], a.group)
    {
      if a.group == tag.group {
        assert (trace + [op])[|trace|].kind == Produce(a.group);
      } else {
        LeftKept(n, l, top, trace, op, a.group);
      }
    }
    ReturnsKept(top, backups, trace, op);
    UsesKept(trace, op);
  }

  // A release or a use keeps what is settled.
  lemma OpSettles(n: nat, l: nat, top: int, live: map<Tag, Tensor>, backups: Backups, trace: seq<Op>, op: Op)
    requires Settled(n, l, top, live, backups, trace) && (op.kind.Free? || op.kind.Use?)
    requires op.kind.Use? ==> forall m: nat :: m < |trace| && trace[m].kind == CopyOut(op.kind.group) ==>
               ReloadKnown(trace, op.after, m, op.kind.group)
    ensures Settled(n, l, top, live, backups, trace + [op])
  {
    forall a | a in live
      ensures LeftAt(n, l, top, trace + [op], a.group)
    {
      LeftKept(n, l, top, trace, op, a.group);
    }
    ReturnsKept(top, backups, trace, op);
    UsesKept(trace, op);
  }

  // When a group's tensors are used, every copy out of it has been reloaded, and the reload waited for.
  lemma PopReloaded(n: nat, l: nat, g: nat, live: map<Tag, Tensor>, s: State, m: nat)
    requires 0 < n <= l && Inv(n, l, Backward(g), live, s)
    requires Returns(Top(n, l, Backward(g)), s.backups, s.streams.trace)
    requires m < |s.streams.trace| && s.streams.trace[m].kind == CopyOut(g)
    ensures ReloadKnown(s.streams.trace, s.streams.Known(Compute), m, g)
  {
    hide SlotsOk, BufsOk, LiveOk, BackupsOk;
    var st, top := s.streams, Top(n, l, Backward(g));
    ClosedBehind(n, l, g);
    assert ReturnsAt(top, s.backups, st.trace, m, g);
    var p :| m < p < |st.trace| && st.trace[p].kind == CopyIn(g);
    assert !Pending(NOTHING, PendingBack(n, l, Backward(g)), st.trace[p].kind);
  }

  lemma PopSettles(n: nat, l: nat, g: nat, live: map<Tag, Tensor>, s: State, tag: Tag)
    requires 0 < n <= l && Inv(n, l, Backward(g), live, s)
    requires Settled(n, l, Top(n, l, Backward(g)), live, s.backups, s.streams.trace)
    ensures Settled(n, l, Top(n, l, Backward(g)), live - {tag}, s.backups, s.streams.Issue(Compute, Use(g)).trace)
  {
    var st := s.streams;
    forall m: nat | m < |st.trace| && st.trace[m].kind == CopyOut(g)
      ensures ReloadKnown(st.trace, st.Known(Compute), m, g)
    {
      PopReloaded(n, l, g, live, s, m);
    }
    hide Inv, LeftAt, Returns, UsesBehindReload, Top;
    OpSettles(n, l, Top(n, l, Backward(g)), live, s.backups, st.trace, Op(Use(g), Compute, st.Known(Compute)));
  }

  // ------------------------------------------------------------------ forward commit

  // The trace before and after an offload of group `top`, which is copied out if anything of it is alive.
  lemma OffloadSettles(n: nat, l: nat, top: nat, live: map<Tag, Tensor>, backups: Backups, backup: map<Key, seq<int>>,
                       trace: seq<Op>, op: Op)
    requires Settled(n, l, top, live, backups, trace) && op.kind == CopyOut(top)
    requires InLive(live, top) ==> backup != map[]
    ensures Settled(n, l, top + 1, live, backups[top := backup], if InLive(live, top) then trace + [op] else trace)
  {
    var after := if InLive(live, top) then trace + [op] else trace;
    forall a | a in live
      ensures LeftAt(n, l, top + 1, after, a.group)
    {
      OffloadLeft(n, l, top, trace, after, a.group);
    }
    forall m: nat, k: nat | m < |after| && after[m].kind == CopyOut(k)
      ensures ReturnsAt(top + 1, backups[top := backup], after, m, k)
    {
      if m < |trace| {
        assert ReturnsAt(top, backups, trace, m, k);
        LaterKept(trace, after, m, CopyIn(k));
      }
    }
    UsesKept(trace, op);
  }

  lemma OffloadLeft(n: nat, l: nat, top: nat, trace: seq<Op>, after: seq<Op>, k: nat)
    requires LeftAt(n, l, top, trace, k)
    requires after == trace || (|after| == |trace| + 1 && trace <= after && after[|trace|].kind == CopyOut(top))
    requires k == top ==> after != trace
    ensures LeftAt(n, l, top + 1, after, k)
  {
    var j :| 0 <= j < |trace| && trace[j].kind == Produce(k);
    assert after[j].kind == Produce(k);
    if OffloadInvariant.OnHost(n, l, top + 1, k) {
      forall j: nat | j < |after| && after[j].kind == Produce(k)
        ensures Later(after, j, CopyOut(k))
      {
        assert j < |trace| && trace[j].kind == Produce(k);
        LaterKept(trace, after, j, CopyOut(k));
        assert k == top ==> after[|trace|].kind == CopyOut(k);
      }
    }
  }

  lemma BulkSettles(n: nat, l: nat, g: nat, top: nat, freed: int, live: map<Tag, Tensor>, s: State)
    requires top < n <= l && Committing(n, l, g, top, freed, top, live, s.slots, s.backups, s.bufs, s.streams)
    requires Settled(n, l, top, live, s.backups, s.streams.trace) && BulkOffload(s, top).Ok?
    ensures var r := BulkOffload(s, top).value;
            Settled(n, l, top + 1, live, r.backups, r.streams.trace)
  {
    OffloadFields(s, top);
    AnyInLive(n, l, g, top, freed, live, s);
    BackupThere(n, l, top, live, s);
    hide Committing, BulkOffload, BackupOf, Settled, AnyIn, InLive;
    OffloadSettles(n, l, top, live, s.backups, BackupOf(s.slots, top), s.streams.trace,
                   Op(CopyOut(top), DeviceToHost, s.streams.Known(DeviceToHost)));
    assert s.streams.trace + [] == s.streams.trace;
  }

  lemma KickstartSettles(n: nat, l: nat, g: nat, live: map<Tag, Tensor>, s: State)
    requires 0 < n <= l && g < l && Inv(n, l, Forward(g), live, s)
    requires Settled(n, l, Top(n, l, Forward(g)), live, s.backups, s.streams.trace)
    ensures Kickstart(s).Ok?
    ensures Settled(n, l, Min(n, Closed(n, l, g) + 1), live, Kickstart(s).value.backups,
                    Kickstart(s).value.streams.trace)
  {
    hide LiveOk, SlotsOk, BackupsOk, BufsOk, StreamsOk, BulkOffload, Settled;
    KickstartKeeps(n, l, g, live, s);
    if g == 0 {
      WaitKeeps(n, l, 0, NOTHING, s.streams, DeviceToHost, Compute);
      BulkSettles(n, l, 0, 0, 0, live, s.(streams := s.streams.Wait(DeviceToHost, Compute)));
    }
  }

  lemma UncoverSettles(n: nat, l: nat, top: int, live: map<Tag, Tensor>, s: State)
    requires Settled(n, l, top, live, s.backups, s.streams.trace) && s.offloaded >= 0
    ensures Settled(n, l, top, live, Uncover(s).backups, Uncover(s).streams.trace)
  {
    hide Settled;
    var st := s.streams.Wait(DeviceToHost, Compute).Wait(Compute, DeviceToHost);
    OpSettles(n, l, top, live, s.backups, s.streams.trace, Op(Free(s.offloaded), Compute, st.Known(Compute)));
  }

  lemma CloseWindowSettles(n: nat, l: nat, g: nat, c: nat, live: map<Tag, Tensor>, s: State)
    requires c < n <= l && (n == l ==> c == g)
    requires Committing(n, l, g, c + 1, c, c, live, s.slots, s.backups, s.bufs, s.streams) && s.offloaded == c
    requires Settled(n, l, c + 1, live, s.backups, s.streams.trace)
    ensures CloseWindow(n, s).Ok?
    ensures Settled(n, l, Min(n, c + 2), live, CloseWindow(n, s).value.backups,
                    CloseWindow(n, s).value.streams.trace)
  {
    hide Committing, ProducersKnown, BulkOffload, Uncover, Settled;
    UncoverKeeps(n, l, g, c + 1, c, live, s);
    UncoverSettles(n, l, c + 1, live, s);
    if c < n - 1 {
      OffloadFrom(n, l, g, c + 1, c + 1, live, Uncover(s));
      BulkSettles(n, l, g, c + 1, c + 1, live, Uncover(s));
    } else {
      UncoverBackups(s);
    }
  }

  lemma UncoverBackups(s: State)
    requires s.offloaded >= 0
    ensures Uncover(s).backups == s.backups
  {
  }

  lemma CommitForwardSettles(n: nat, l: nat, g: nat, live: map<Tag, Tensor>, s: State)
    requires 0 < n <= l && g < l && Inv(n, l, Forward(g), live, s)
    requires Settled(n, l, Top(n, l, Forward(g)), live, s.backups, s.streams.trace)
    ensures CommitForward(n, l, s).Ok?
    ensures var r := CommitForward(n, l, s).value;
            Settled(n, l, Top(n, l, Forward(g + 1)), live, r.backups, r.streams.trace)
  {
    hide Committing, Inv, Kickstart, CloseWindow, Settled;
    KickstartKeeps(n, l, g, live, s);
    KickstartSettles(n, l, g, live, s);
    ClosedAtEnd(n, l, g);
    ClosedBehind(n, l, g);
    var c := Closed(n, l, g);
    if Window(n, l, c) == g {
      CloseWindowKeeps(n, l, g, c, live, Kickstart(s).value);
      CloseWindowSettles(n, l, g, c, live, Kickstart(s).value);
    }
  }

  // ------------------------------------------------------------------ backward commit

  lemma ReloadSettles(n: nat, l: nat, top: nat, live: map<Tag, Tensor>, backups: Backups, trace: seq<Op>, op: Op)
    requires 0 < top && Settled(n, l, top, live, backups, trace) && op.kind == CopyIn(top - 1)
    ensures Settled(n, l, top - 1, live, backups - {top - 1},
                    if HasBackup(backups, top - 1) then trace + [op] else trace)
  {
    var after := if HasBackup(backups, top - 1) then trace + [op] else trace;
    forall a | a in live
      ensures LeftAt(n, l, top - 1, after, a.group)
    {
      LeftKept(n, l, top, trace, op, a.group);
    }
    forall m: nat, k: nat | m < |after| && after[m].kind == CopyOut(k)
      ensures ReturnsAt(top - 1, backups - {top - 1}, after, m, k)
    {
      assert m < |trace| && trace[m].kind == CopyOut(k);
      assert ReturnsAt(top, backups, trace, m, k);
      LaterKept(trace, after, m, CopyIn(k));
      if k == top - 1 && HasBackup(backups, k) {
        assert after[|trace|].kind == CopyIn(k);
      }
    }
    UsesKept(trace, op);
  }

  lemma OpenWindowFields(n: nat, s: State)
    requires s.offloaded > 0 && OpenWindow(n, s).Ok?
    ensures var r, k := OpenWindow(n, s).value, s.offloaded - 1;
            var waited := s.streams.Wait(HostToDevice, Compute).Wait(Compute, HostToDevice);
            && r.backups == s.backups - {k}
            && r.streams.trace == if HasBackup(s.backups, k)
                                  then s.streams.trace + [Op(CopyIn(k), HostToDevice, waited.Known(HostToDevice))]
                                  else s.streams.trace
  {
  }

  lemma CommitBackwardSettles(n: nat, l: nat, ph: Phase, live: map<Tag, Tensor>, s: State)
    requires 0 < n <= l && Inv(n, l, ph, live, s)
    requires ph.g > 0 && (ph == Forward(l) || (ph.Backward? && forall tag :: tag in live ==> tag.group < ph.g))
    requires Settled(n, l, Top(n, l, ph), live, s.backups, s.streams.trace)
    ensures CommitBackward(n, l, s).Ok?
    ensures var r := CommitBackward(n, l, s).value;
            Settled(n, l, Top(n, l, Backward(ph.g - 1)), live, r.backups, r.streams.trace)
  {
    hide Inv, OpenWindow, LiveOk, Closed, Window, Settled;
    var g := ph.g - 1;
    EnterBackward(n, l, ph, live, s);
    ClosedReverse(n, l, g);
    ClosedAtEnd(n, l, ph.g);
    CommitBackwardKeeps(n, l, ph, live, s);
    if Window(n, l, s.offloaded - 1) == g {
      var s0, top := s.(current := g), s.offloaded;
      OpenWindowKeeps(n, l, ph, live, s);
      OpenWindowFields(n, s0);
      var waited := s.streams.Wait(HostToDevice, Compute).Wait(Compute, HostToDevice);
      ReloadSettles(n, l, top, live, s.backups, s.streams.trace,
                    Op(CopyIn(top - 1), HostToDevice, waited.Known(HostToDevice)));
    }
  }

  // ------------------------------------------------------------------ whole runs

  ghost predicate SettledOk(n: nat, l: nat, c: Client, y: AsyncSystem)
    requires n > 0
  {
    Settled(n, l, Top(n, l, c.phase), y.live, y.handler.backups, y.handler.streams.trace)
  }

  lemma SaveSettles(n: nat, l: nat, c: Client, y: AsyncSystem, item: Saved)
    requires 0 < n <= l && AsyncOk(n, l, c, y) && Enabled(l, c, Save(item)) && SettledOk(n, l, c, y)
    ensures var r := AsyncStep(n, l, c, y, Save(item));
            r.Ok? && SettledOk(n, l, After(c, Save(item)), r.value.0)
  {
    SaveKeeps(n, l, c, y, item);
    Counters(n, l, c, y);
    GroupStaysOnDevice(n, l, c.phase.g);
    hide Settled, AsyncOk, Top, Enabled;
    if item.Tracked() {
      var tag, st := Tag(y.handler.current, y.handler.count), y.handler.streams;
      PushSettles(n, l, Top(n, l, c.phase), y.live, y.handler.backups, st.trace, tag, item.tensor,
                  Op(Produce(tag.group), Compute, st.Known(Compute)));
      PushFields(n, y.handler, item.tensor);
    }
    hide Push;
    SaveStep(n, l, c, y, item);
    hide AsyncStep;
  }

  lemma FetchSettles(n: nat, l: nat, c: Client, y: AsyncSystem, a: Act)
    requires 0 < n <= l && AsyncOk(n, l, c, y) && Enabled(l, c, Fetch(a)) && SettledOk(n, l, c, y)
    ensures var r := AsyncStep(n, l, c, y, Fetch(a));
            r.Ok? && SettledOk(n, l, After(c, Fetch(a)), r.value.0)
  {
    FetchKeeps(n, l, c, y, a);
    var h := y.handles[a];
    HandleGroup(n, l, c, y, a);
    hide Inv, Settled, Linked, ClientOk, Enabled;
    if h.Tagged? {
      PopSettles(n, l, a.group, y.live, y.handler, h.tag);
      PopFields(y.handler, h.tag);
    }
    hide Pop;
  }

  lemma CommitSettles(n: nat, l: nat, c: Client, y: AsyncSystem, e: Event)
    requires 0 < n <= l && AsyncOk(n, l, c, y) && Enabled(l, c, e) && SettledOk(n, l, c, y)
    requires e.CommitFwd? || e.CommitBwd?
    ensures var r := AsyncStep(n, l, c, y, e);
            r.Ok? && SettledOk(n, l, After(c, e), r.value.0)
  {
    hide Inv, CommitForward, CommitBackward, Settled;
    if e.CommitFwd? {
      CommitForwardSettles(n, l, c.phase.g, y.live, y.handler);
    } else {
      forall tag | tag in y.live && c.phase.Backward?
        ensures tag.group < c.phase.g
      {
        var a :| a in y.handles && y.handles[a] == Tagged(tag);
      }
      EnterBackward(n, l, c.phase, y.live, y.handler);
      CommitBackwardSettles(n, l, c.phase, y.live, y.handler);
    }
  }

  lemma {:induction false} RunSettles(n: nat, l: nat, c: Client, y: AsyncSystem, es: seq<Event>)
    requires 0 < n <= l && AsyncOk(n, l, c, y) && SettledOk(n, l, c, y) && WellFormedRun(l, c, es)
    ensures var r := AsyncRun(n, l, c, y, es);
            r.Ok? && AsyncOk(n, l, Final(c, es), r.value.0) && SettledOk(n, l, Final(c, es), r.value.0)
    decreases |es|
  {
    hide AsyncOk, AsyncStep, WellFormed, Settled;
    if es != [] {
      var e := es[0];
      AsyncKeeps(n, l, c, y, e);
      match e {
        case Save(item) => SaveSettles(n, l, c, y, item);
        case Fetch(a) => FetchSettles(n, l, c, y, a);
        case NextStep => NextStepIs(n, l, c, y);
        case _ => CommitSettles(n, l, c, y, e);
      }
      RunSettles(n, l, After(c, e), AsyncStep(n, l, c, y, e).value.0, es[1..]);
    }
  }

  lemma NextStepIs(n: nat, l: nat, c: Client, y: AsyncSystem)
    ensures After(c, NextStep) == START && AsyncStep(n, l, c, y, NextStep) == Ok((y, None))
    ensures n > 0 ==> Top(n, l, Forward(0)) == Top(n, l, Backward(0))
  {
  }

  // In every run: what the device no longer holds has been copied out behind its product, and what has been copied
  // out is used behind its copy back.
  lemma RunsAreMemorySafe(n: nat, l: nat, es: seq<Event>)
    requires 0 < n <= l && WellFormedRun(l, START, es)
    ensures var r := AsyncRun(n, l, START, ASYNC_START, es);
            r.Ok? && MemorySafe(r.value.0.handler) && UsesBehindReload(r.value.0.handler.streams.trace)
  {
    hide AsyncRun, WellFormedRun, Inv, MemorySafe;
    StartOk(n, l);
    RunSettles(n, l, START, ASYNC_START, es);
    var y := AsyncRun(n, l, START, ASYNC_START, es).value.0;
    SettledIsSafe(n, l, Final(START, es).phase, y.live, y.handler);
  }
}
