/** Stream safety of the issued operations: no group's buffer entries are dropped, and no group is reloaded, before a
    copy of it has been made, and none is used before it has been copied back. */
module OffloadDelivery {
  import opened Wrappers
  import opened Arithmetic
  import opened OffloadWindow
  import opened OffloadModel
  import opened OffloadInvariant
  import opened OffloadRuns

  // ------------------------------------------------------------------ what a safe trace holds

  // Operation i waits for an operation of this kind that was issued after operation j.
  ghost predicate Between(trace: seq<Op>, j: nat, i: nat, kind: Kind)
    requires i < |trace|
  {
    exists m :: j < m < i && trace[m].kind == kind && m in trace[i].after
  }

  // Every product of the group before i has been copied in that way.
  ghost predicate AllCopied(trace: seq<Op>, i: nat, group: nat, kind: Kind)
    requires i < |trace|
  {
    forall j: nat :: j < i && trace[j].kind == Produce(group) ==> Between(trace, j, i, kind)
  }

  ghost predicate DeliveredAt(n: nat, trace: seq<Op>, i: nat)
    requires i < |trace|
  {
    match trace[i].kind
    case Free(k) => AllCopied(trace, i, k, CopyOut(k))
    case CopyIn(k) => AllCopied(trace, i, k, CopyOut(k))
    case Use(k) => k < n ==> AllCopied(trace, i, k, CopyIn(k))
    case _ => true
  }

  // A group's buffer entries are dropped, and the group is reloaded, only behind a copy out of all it produced, and
  // the tensors of an offloaded group are used only behind a copy in.
  ghost predicate Delivered(n: nat, trace: seq<Op>) {
    forall i: nat :: i < |trace| ==> DeliveredAt(n, trace, i)
  }

  // ------------------------------------------------------------------ what still has to be copied

  ghost predicate Later(trace: seq<Op>, j: nat, kind: Kind) {
    exists m :: j < m < |trace| && trace[m].kind == kind
  }

  ghost predicate InLive(live: map<Tag, Tensor>, k: nat) {
    exists tag :: tag in live && tag.group == k
  }

  predicate HasBackup(backups: Backups, k: nat) {
    k in backups && backups[k] != map[]
  }

  // A product of group k is waiting for its group's offload while the step goes forward, or has been copied out;
  // and then it is waiting for its group's reload or has been copied in.
  ghost predicate FlowAt(top: int, forward: bool, live: map<Tag, Tensor>, backups: Backups, trace: seq<Op>, j: nat,
                         k: nat)
  {
    (forward && k >= top && InLive(live, k))
    || (Later(trace, j, CopyOut(k)) && ((k < top && HasBackup(backups, k)) || Later(trace, j, CopyIn(k))))
  }

  ghost predicate Flow(n: nat, top: int, forward: bool, live: map<Tag, Tensor>, backups: Backups, trace: seq<Op>) {
    forall j: nat, k: nat :: j < |trace| && k < n && trace[j].kind == Produce(k) ==>
      FlowAt(top, forward, live, backups, trace, j, k)
  }

  ghost predicate Flowing(n: nat, top: int, forward: bool, live: map<Tag, Tensor>, s: State) {
    Flow(n, top, forward, live, s.backups, s.streams.trace) && Delivered(n, s.streams.trace)
  }

  // ------------------------------------------------------------------ issuing

  // What has to be known to the stream before an operation is issued on it.
  ghost predicate Ready(n: nat, st: Streams, s: Stream, kind: Kind) {
    match kind
    case Free(k) => CopiesKnown(st, s, k, CopyOut(k))
    case CopyIn(k) => CopiesKnown(st, s, k, CopyOut(k))
    case Use(k) => k < n ==> CopiesKnown(st, s, k, CopyIn(k))
    case _ => true
  }

  ghost predicate CopiesKnown(st: Streams, s: Stream, k: nat, kind: Kind) {
    forall j: nat :: j < |st.trace| && st.trace[j].kind == Produce(k) ==>
      exists m :: j < m < |st.trace| && st.trace[m].kind == kind && m in st.Known(s)
  }

  lemma IssueDelivers(n: nat, st: Streams, s: Stream, kind: Kind)
    requires Delivered(n, st.trace) && Ready(n, st, s, kind)
    ensures Delivered(n, st.Issue(s, kind).trace)
  {
    var after := st.Issue(s, kind).trace;
    forall i: nat | i < |after|
      ensures DeliveredAt(n, after, i)
    {
      if i < |st.trace| {
        assert DeliveredAt(n, st.trace, i);
        EarlierKept(n, st.trace, after, i);
      } else {
        LastDelivered(n, st, s, kind);
      }
    }
  }

  lemma EarlierKept(n: nat, trace: seq<Op>, after: seq<Op>, i: nat)
    requires trace <= after && i < |trace| && DeliveredAt(n, trace, i)
    ensures DeliveredAt(n, after, i)
  {
    forall j: nat, kind | j < i && Between(trace, j, i, kind)
      ensures Between(after, j, i, kind)
    {
      var m :| j < m < i && trace[m].kind == kind && m in trace[i].after;
      assert after[m] == trace[m];
    }
    assert after[i] == trace[i] && forall j: nat :: j < i ==> after[j] == trace[j];
  }

  lemma LastDelivered(n: nat, st: Streams, s: Stream, kind: Kind)
    requires Ready(n, st, s, kind)
    ensures DeliveredAt(n, st.Issue(s, kind).trace, |st.trace|)
  {
    var after := st.Issue(s, kind).trace;
    forall k: nat, copy | CopiesKnown(st, s, k, copy)
      ensures AllCopied(after, |st.trace|, k, copy)
    {
      forall j: nat | j < |st.trace| && after[j].kind == Produce(k)
        ensures Between(after, j, |st.trace|, copy)
      {
        assert st.trace[j].kind == Produce(k);
        var m :| j < m < |st.trace| && st.trace[m].kind == copy && m in st.Known(s);
        assert after[m].kind == copy && m in after[|st.trace|].after;
      }
    }
  }

  lemma LaterKept(trace: seq<Op>, after: seq<Op>, j: nat, kind: Kind)
    requires trace <= after
    ensures Later(trace, j, kind) ==> Later(after, j, kind)
  {
    if m :| j < m < |trace| && trace[m].kind == kind {
      assert after[m].kind == kind;
    }
  }

  // An operation that is no product changes nothing for the products before it.
  lemma FlowKept(n: nat, top: int, forward: bool, live: map<Tag, Tensor>, backups: Backups, trace: seq<Op>, op: Op)
    requires Flow(n, top, forward, live, backups, trace) && !op.kind.Produce?
    ensures Flow(n, top, forward, live, backups, trace + [op])
  {
    forall j: nat, k: nat | j < |trace + [op]| && k < n && (trace + [op])[j].kind == Produce(k)
      ensures FlowAt(top, forward, live, backups, trace + [op], j, k)
    {
      assert trace[j].kind == Produce(k);
      assert FlowAt(top, forward, live, backups, trace, j, k);
      LaterKept(trace, trace + [op], j, CopyOut(k));
      LaterKept(trace, trace + [op], j, CopyIn(k));
    }
  }

  // ------------------------------------------------------------------ push and pop

  lemma PushFlows(n: nat, top: int, live: map<Tag, Tensor>, s: State, tag: Tag, t: Tensor)
    requires Flowing(n, top, true, live, s) && top <= tag.group
    ensures var st := s.streams.Issue(Compute, Produce(tag.group));
            Flow(n, top, true, live[tag := t], s.backups, st.trace) && Delivered(n, st.trace)
  {
    IssueDelivers(n, s.streams, Compute, Produce(tag.group));
    var after := s.streams.Issue(Compute, Produce(tag.group)).trace;
    forall j: nat, k: nat | j < |after| && k < n && after[j].kind == Produce(k)
      ensures FlowAt(top, true, live[tag := t], s.backups, after, j, k)
    {
      PushFlowsAt(top, live, s, tag, t, j, k);
    }
  }

  lemma PushFlowsAt(top: int, live: map<Tag, Tensor>, s: State, tag: Tag, t: Tensor, j: nat, k: nat)
    requires top <= tag.group && j <= |s.streams.trace|
    requires if j < |s.streams.trace| then FlowAt(top, true, live, s.backups, s.streams.trace, j, k) else k == tag.group
    ensures FlowAt(top, true, live[tag := t], s.backups, s.streams.Issue(Compute, Produce(tag.group)).trace, j, k)
  {
    var trace, after := s.streams.trace, s.streams.Issue(Compute, Produce(tag.group)).trace;
    if j < |trace| {
      LaterKept(trace, after, j, CopyOut(k));
      LaterKept(trace, after, j, CopyIn(k));
      if a :| a in live && a.group == k {
        assert a in live[tag := t];
      }
    } else {
      assert tag in live[tag := t];
    }
  }

  lemma PopFlows(n: nat, l: nat, g: nat, live: map<Tag, Tensor>, s: State, tag: Tag)
    requires 0 < n <= l && (n < l || l == 1) && Inv(n, l, Backward(g), live, s)
    requires Flowing(n, Top(n, l, Backward(g)), false, live, s) && tag.group == g
    ensures var st := s.streams.Issue(Compute, Use(g));
            Flow(n, Top(n, l, Backward(g)), false, live - {tag}, s.backups, st.trace) && Delivered(n, st.trace)
  {
    var st, top := s.streams, Top(n, l, Backward(g));
    ClosedBehind(n, l, g);
    if g < n {
      forall j: nat | j < |st.trace| && st.trace[j].kind == Produce(g)
        ensures exists m :: j < m < |st.trace| && st.trace[m].kind == CopyIn(g) && m in st.Known(Compute)
      {
        assert FlowAt(top, false, live, s.backups, st.trace, j, g);
        var m :| j < m < |st.trace| && st.trace[m].kind == CopyIn(g);
        assert !Pending(NOTHING, PendingBack(n, l, Backward(g)), st.trace[m].kind);
      }
    }
    IssueDelivers(n, st, Compute, Use(g));
    LiveUnused(n, top, live, live - {tag}, s.backups, st.trace);
    FlowKept(n, top, false, live - {tag}, s.backups, st.trace, Op(Use(g), Compute, st.Known(Compute)));
  }

  lemma LiveUnused(n: nat, top: int, live: map<Tag, Tensor>, live': map<Tag, Tensor>, backups: Backups, trace: seq<Op>)
    requires Flow(n, top, false, live, backups, trace)
    ensures Flow(n, top, false, live', backups, trace)
  {
    forall j: nat, k: nat | j < |trace| && k < n && trace[j].kind == Produce(k)
      ensures FlowAt(top, false, live', backups, trace, j, k)
    {
      assert FlowAt(top, false, live, backups, trace, j, k);
    }
  }

  // ------------------------------------------------------------------ forward commit

  lemma OffloadFlows(n: nat, l: nat, g: nat, top: nat, freed: int, live: map<Tag, Tensor>, s: State)
    requires top < n <= l && Committing(n, l, g, top, freed, top, live, s.slots, s.backups, s.bufs, s.streams)
    requires Flowing(n, top, true, live, s) && BulkOffload(s, top).Ok?
    ensures Flowing(n, top + 1, true, live, BulkOffload(s, top).value)
  {
    var r := BulkOffload(s, top).value;
    OffloadFields(s, top);
    AnyInLive(n, l, g, top, freed, live, s);
    BackupThere(n, l, top, live, s);
    if AnyIn(s.slots, top) {
      IssueDelivers(n, s.streams, DeviceToHost, CopyOut(top));
    }
    hide Committing, BulkOffload, BackupOf, Delivered;
    TraceFlows(n, top, live, s.backups, r.backups, s.streams.trace, r.streams.trace);
  }

  lemma TraceFlows(n: nat, top: nat, live: map<Tag, Tensor>, backups: Backups, backups': Backups, trace: seq<Op>,
                   after: seq<Op>)
    requires Flow(n, top, true, live, backups, trace) && trace <= after
    requires forall i: int :: i != top ==> (i in backups <==> i in backups')
    requires forall i: int :: i != top && i in backups ==> backups[i] == backups'[i]
    requires InLive(live, top) ==>
               HasBackup(backups', top) && |after| == |trace| + 1 && after[|trace|].kind == CopyOut(top)
    requires !InLive(live, top) ==> after == trace
    ensures Flow(n, top + 1, true, live, backups', after)
  {
    forall j: nat, k: nat | j < |after| && k < n && after[j].kind == Produce(k)
      ensures FlowAt(top + 1, true, live, backups', after, j, k)
    {
      assert j < |trace| && trace[j].kind == Produce(k);
      assert FlowAt(top, true, live, backups, trace, j, k);
      OffloadFlowsAt(top, live, backups, backups', trace, after, j, k);
    }
  }

  lemma OffloadFields(s: State, top: nat)
    requires BulkOffload(s, top).Ok?
    ensures var r := BulkOffload(s, top).value;
            && r.backups == s.backups[top := BackupOf(s.slots, top)]
            && r.streams.trace == s.streams.trace
                 + if AnyIn(s.slots, top) then [Op(CopyOut(top), DeviceToHost, s.streams.Known(DeviceToHost))] else []
  {
  }

  lemma AnyInLive(n: nat, l: nat, g: nat, top: nat, freed: int, live: map<Tag, Tensor>, s: State)
    requires Committing(n, l, g, top, freed, top, live, s.slots, s.backups, s.bufs, s.streams)
    ensures AnyIn(s.slots, top) == InLive(live, top)
  {
  }

  // The backup of a group that holds anything is not empty.
  lemma BackupThere(n: nat, l: nat, top: nat, live: map<Tag, Tensor>, s: State)
    requires SlotsOk(n, l, top, true, live, s.slots, s.backups)
    ensures InLive(live, top) ==> BackupOf(s.slots, top) != map[]
  {
    if tag :| tag in live && tag.group == top {
      assert SlotOk(n, l, top, true, tag.group, live[tag], s.slots[tag], s.backups);
      assert s.slots[tag].tensor.key in KeysOf(s.slots, top);
      assert s.slots[tag].tensor.key in BackupOf(s.slots, top);
    }
  }

  lemma OffloadFlowsAt(top: nat, live: map<Tag, Tensor>, backups: Backups, backups': Backups, trace: seq<Op>,
                       after: seq<Op>, j: nat, k: nat)
    requires FlowAt(top, true, live, backups, trace, j, k) && trace <= after && j < |trace|
    requires forall i: int :: i != top ==> (i in backups <==> i in backups')
    requires forall i: int :: i != top && i in backups ==> backups[i] == backups'[i]
    requires InLive(live, top) ==>
               HasBackup(backups', top) && |after| == |trace| + 1 && after[|trace|].kind == CopyOut(top)
    ensures FlowAt(top + 1, true, live, backups', after, j, k)
  {
    LaterKept(trace, after, j, CopyOut(k));
    LaterKept(trace, after, j, CopyIn(k));
    if k == top && InLive(live, top) {
      assert Later(after, j, CopyOut(k));
    }
  }

  lemma UncoverFlows(n: nat, l: nat, g: nat, top: int, c: nat, live: map<Tag, Tensor>, s: State)
    requires c < n && Committing(n, l, g, top, c, c, live, s.slots, s.backups, s.bufs, s.streams) && s.offloaded == c
    requires Flowing(n, top, true, live, s) && c < top
    ensures Flowing(n, top, true, live, Uncover(s))
  {
    var st := s.streams.Wait(DeviceToHost, Compute).Wait(Compute, DeviceToHost);
    forall j: nat | j < |st.trace| && st.trace[j].kind == Produce(c)
      ensures exists m :: j < m < |st.trace| && st.trace[m].kind == CopyOut(c) && m in st.Known(Compute)
    {
      assert FlowAt(top, true, live, s.backups, s.streams.trace, j, c);
      var m :| j < m < |st.trace| && st.trace[m].kind == CopyOut(c);
      assert m in s.streams.Known(Home(s.streams.trace[m].kind));
    }
    IssueDelivers(n, st, Compute, Free(c));
    FlowKept(n, top, true, live, s.backups, st.trace, Op(Free(c), Compute, st.Known(Compute)));
  }

  lemma KickstartFlows(n: nat, l: nat, g: nat, live: map<Tag, Tensor>, s: State)
    requires 0 < n <= l && g < l && Inv(n, l, Forward(g), live, s)
    requires Flowing(n, Top(n, l, Forward(g)), true, live, s)
    ensures Kickstart(s).Ok? && Flowing(n, Min(n, Closed(n, l, g) + 1), true, live, Kickstart(s).value)
  {
    hide LiveOk, SlotsOk, BackupsOk, BufsOk, StreamsOk, BulkOffload, Flow, Delivered;
    KickstartKeeps(n, l, g, live, s);
    if g == 0 {
      WaitKeeps(n, l, 0, NOTHING, s.streams, DeviceToHost, Compute);
      OffloadFlows(n, l, 0, 0, 0, live, s.(streams := s.streams.Wait(DeviceToHost, Compute)));
    }
  }

  lemma CloseWindowFlows(n: nat, l: nat, g: nat, c: nat, live: map<Tag, Tensor>, s: State)
    requires c < n <= l && (n == l ==> c == g)
    requires Committing(n, l, g, c + 1, c, c, live, s.slots, s.backups, s.bufs, s.streams) && s.offloaded == c
    requires Flowing(n, c + 1, true, live, s)
    ensures CloseWindow(n, s).Ok? && Flowing(n, Min(n, c + 2), true, live, CloseWindow(n, s).value)
  {
    hide Committing, ProducersKnown, BulkOffload, Uncover, Flow, Delivered;
    UncoverKeeps(n, l, g, c + 1, c, live, s);
    UncoverFlows(n, l, g, c + 1, c, live, s);
    if c < n - 1 {
      OffloadFrom(n, l, g, c + 1, c + 1, live, Uncover(s));
      OffloadFlows(n, l, g, c + 1, c + 1, live, Uncover(s));
    }
  }

  lemma CommitForwardFlows(n: nat, l: nat, g: nat, live: map<Tag, Tensor>, s: State)
    requires 0 < n <= l && g < l && Inv(n, l, Forward(g), live, s)
    requires Flowing(n, Top(n, l, Forward(g)), true, live, s)
    ensures CommitForward(n, l, s).Ok?
    ensures Flowing(n, Top(n, l, Forward(g + 1)), true, live, CommitForward(n, l, s).value)
  {
    hide Committing, Inv, Kickstart, CloseWindow, Flow, Delivered;
    KickstartKeeps(n, l, g, live, s);
    KickstartFlows(n, l, g, live, s);
    ClosedAtEnd(n, l, g);
    ClosedBehind(n, l, g);
    var c := Closed(n, l, g);
    if Window(n, l, c) == g {
      CloseWindowKeeps(n, l, g, c, live, Kickstart(s).value);
      CloseWindowFlows(n, l, g, c, live, Kickstart(s).value);
    }
  }

  // ------------------------------------------------------------------ backward commit

  // Once all groups have been offloaded no product waits for that any more.
  lemma Turn(n: nat, top: int, forward: bool, live: map<Tag, Tensor>, s: State)
    requires Flowing(n, top, forward, live, s) && (forward ==> top >= n)
    ensures Flowing(n, top, false, live, s)
  {
    forall j: nat, k: nat | j < |s.streams.trace| && k < n && s.streams.trace[j].kind == Produce(k)
      ensures FlowAt(top, false, live, s.backups, s.streams.trace, j, k)
    {
      assert FlowAt(top, forward, live, s.backups, s.streams.trace, j, k);
    }
  }

  lemma ReloadReady(n: nat, l: nat, ph: Phase, live: map<Tag, Tensor>, s: State, top: nat)
    requires 0 < top <= n <= l && ph.g > 0 && (ph.Forward? ==> ph.g == l)
    requires StreamsOk(n, l, PendingOut(n, l, ph), PendingBack(n, l, ph), s.streams)
    requires Flow(n, top, false, live, s.backups, s.streams.trace)
    ensures var waited := s.streams.Wait(HostToDevice, Compute).Wait(Compute, HostToDevice);
            Ready(n, waited, HostToDevice, CopyIn(top - 1))
  {
    ClosedAtEnd(n, l, l);
    var st, k := s.streams, top - 1;
    forall j: nat | j < |st.trace| && st.trace[j].kind == Produce(k)
      ensures exists m :: j < m < |st.trace| && st.trace[m].kind == CopyOut(k) && m in st.Known(Compute)
    {
      assert FlowAt(top, false, live, s.backups, st.trace, j, k);
      var m :| j < m < |st.trace| && st.trace[m].kind == CopyOut(k);
      assert !Pending(PendingOut(n, l, ph), PendingBack(n, l, ph), st.trace[m].kind);
    }
  }

  lemma OpenWindowFlows(n: nat, l: nat, ph: Phase, live: map<Tag, Tensor>, s: State)
    requires 0 < n <= l && ph.g > 0 && (ph.Forward? ==> ph.g == l)
    requires Inv(n, l, ph, live, s) && s.offloaded == Closed(n, l, ph.g) > 0
    requires Flowing(n, Closed(n, l, ph.g), false, live, s)
    ensures var r := OpenWindow(n, s.(current := ph.g - 1));
            r.Ok? && Flowing(n, Closed(n, l, ph.g) - 1, false, live, r.value)
  {
    hide SlotsOk, BufsOk, LiveOk, StreamsOk, Flow, Delivered, Ready;
    var top := Closed(n, l, ph.g);
    OpenWindowKeeps(n, l, ph, live, s);
    ReloadReady(n, l, ph, live, s, top);
    var waited := s.streams.Wait(HostToDevice, Compute).Wait(Compute, HostToDevice);
    IssueDelivers(n, waited, HostToDevice, CopyIn(top - 1));
    ReloadFlows(n, top, live, s.backups, waited);
  }

  lemma ReloadFlows(n: nat, top: nat, live: map<Tag, Tensor>, backups: Backups, st: Streams)
    requires 0 < top && Flow(n, top, false, live, backups, st.trace)
    ensures HasBackup(backups, top - 1) ==>
              Flow(n, top - 1, false, live, backups - {top - 1}, st.Issue(HostToDevice, CopyIn(top - 1)).trace)
    ensures !HasBackup(backups, top - 1) ==> Flow(n, top - 1, false, live, backups - {top - 1}, st.trace)
  {
    var trace, after := st.trace, st.Issue(HostToDevice, CopyIn(top - 1)).trace;
    forall j: nat, k: nat | j < |trace| && k < n && trace[j].kind == Produce(k)
      ensures HasBackup(backups, top - 1) ==> FlowAt(top - 1, false, live, backups - {top - 1}, after, j, k)
      ensures !HasBackup(backups, top - 1) ==> FlowAt(top - 1, false, live, backups - {top - 1}, trace, j, k)
    {
      assert FlowAt(top, false, live, backups, trace, j, k);
      LaterKept(trace, after, j, CopyOut(k));
      LaterKept(trace, after, j, CopyIn(k));
      if k == top - 1 {
        assert after[|trace|].kind == CopyIn(k);
      }
    }
    assert forall j: nat, k: nat :: j < |after| && after[j].kind == Produce(k) ==>
             j < |trace| && trace[j].kind == Produce(k);
  }

  lemma CommitBackwardFlows(n: nat, l: nat, ph: Phase, live: map<Tag, Tensor>, s: State)
    requires 0 < n <= l && Inv(n, l, ph, live, s)
    requires ph.g > 0 && (ph == Forward(l) || (ph.Backward? && forall tag :: tag in live ==> tag.group < ph.g))
    requires Flowing(n, Top(n, l, ph), ph.Forward?, live, s)
    ensures CommitBackward(n, l, s).Ok?
    ensures Flowing(n, Top(n, l, Backward(ph.g - 1)), false, live, CommitBackward(n, l, s).value)
  {
    hide Inv, OpenWindow, LiveOk, Closed, Window, Flow, Delivered;
    var g := ph.g - 1;
    EnterBackward(n, l, ph, live, s);
    ClosedReverse(n, l, g);
    ClosedAtEnd(n, l, ph.g);
    Turn(n, Top(n, l, ph), ph.Forward?, live, s);
    assert Flowing(n, Closed(n, l, ph.g), false, live, s);
    if Window(n, l, s.offloaded - 1) == g {
      OpenWindowFlows(n, l, ph, live, s);
    }
  }

  // ------------------------------------------------------------------ whole runs

  ghost predicate DeliveryOk(n: nat, l: nat, c: Client, y: AsyncSystem)
    requires n > 0
  {
    Flowing(n, Top(n, l, c.phase), c.phase.Forward?, y.live, y.handler)
  }

  lemma SaveFlows(n: nat, l: nat, c: Client, y: AsyncSystem, item: Saved)
    requires 0 < n <= l && (n < l || l == 1) && AsyncOk(n, l, c, y) && Enabled(l, c, Save(item))
             && DeliveryOk(n, l, c, y)
    ensures var r := AsyncStep(n, l, c, y, Save(item));
            r.Ok? && DeliveryOk(n, l, After(c, Save(item)), r.value.0)
  {
    SaveKeeps(n, l, c, y, item);
    Counters(n, l, c, y);
    TopBelow(n, l, c.phase.g);
    hide Flow, Delivered, AsyncOk, Top, Enabled;
    if item.Tracked() {
      PushFlows(n, Top(n, l, c.phase), y.live, y.handler, Tag(y.handler.current, y.handler.count), item.tensor);
      PushFields(n, y.handler, item.tensor);
    }
    hide Push;
    SaveStep(n, l, c, y, item);
    hide AsyncStep;
  }

  lemma TopBelow(n: nat, l: nat, g: nat)
    requires 0 < n <= l && (n < l || l == 1) && g < l
    ensures Top(n, l, Forward(g)) <= g
  {
    ClosedBehind(n, l, g);
  }

  lemma SaveStep(n: nat, l: nat, c: Client, y: AsyncSystem, item: Saved)
    requires AsyncStep(n, l, c, y, Save(item)).Ok? && c.phase.Forward?
    ensures var z := AsyncStep(n, l, c, y, Save(item)).value.0;
            && After(c, Save(item)).phase == c.phase
            && Push(n, y.handler, item.tensor, item.need).Ok?
            && var (s, h) := Push(n, y.handler, item.tensor, item.need).value;
               z.handler == s && z.live == if h.Tagged? then y.live[h.tag := item.tensor] else y.live
    ensures !item.Tracked() ==> AsyncStep(n, l, c, y, Save(item)).value.0.handler == y.handler
    ensures !item.Tracked() ==> AsyncStep(n, l, c, y, Save(item)).value.0.live == y.live
  {
  }

  lemma PushFields(n: nat, s: State, t: Tensor)
    requires !t.stray && Push(n, s, t, true).Ok?
    ensures var (r, h) := Push(n, s, t, true).value;
            && h == Tagged(Tag(s.current, s.count))
            && r.backups == s.backups && r.streams == s.streams.Issue(Compute, Produce(s.current))
  {
  }

  lemma FetchFlows(n: nat, l: nat, c: Client, y: AsyncSystem, a: Act)
    requires 0 < n <= l && (n < l || l == 1) && AsyncOk(n, l, c, y) && Enabled(l, c, Fetch(a)) && DeliveryOk(n, l, c, y)
    ensures var r := AsyncStep(n, l, c, y, Fetch(a));
            r.Ok? && DeliveryOk(n, l, After(c, Fetch(a)), r.value.0)
  {
    FetchKeeps(n, l, c, y, a);
    var h := y.handles[a];
    HandleGroup(n, l, c, y, a);
    hide Inv, Flow, Delivered, Linked, ClientOk, Enabled;
    if h.Tagged? {
      PopFlows(n, l, a.group, y.live, y.handler, h.tag);
      PopFields(y.handler, h.tag);
    }
    hide Pop;
  }

  lemma HandleGroup(n: nat, l: nat, c: Client, y: AsyncSystem, a: Act)
    requires 0 < n <= l && AsyncOk(n, l, c, y) && a in c.saved
    ensures a in y.handles && (y.handles[a].Tagged? ==> y.handles[a].tag.group == a.group)
    ensures y.handles[a].Untracked? ==> Pop(y.handler, y.handles[a]) == Ok((y.handler, y.handles[a].tensor))
  {
  }

  lemma PopFields(s: State, tag: Tag)
    requires Pop(s, Tagged(tag)).Ok?
    ensures var r := Pop(s, Tagged(tag)).value.0;
            r.backups == s.backups && r.streams == s.streams.Issue(Compute, Use(tag.group))
  {
  }

  lemma CommitFlows(n: nat, l: nat, c: Client, y: AsyncSystem, e: Event)
    requires 0 < n <= l && AsyncOk(n, l, c, y) && Enabled(l, c, e) && DeliveryOk(n, l, c, y)
    requires e.CommitFwd? || e.CommitBwd?
    ensures var r := AsyncStep(n, l, c, y, e);
            r.Ok? && DeliveryOk(n, l, After(c, e), r.value.0)
  {
    hide Inv, CommitForward, CommitBackward, Flowing;
    if e.CommitFwd? {
      CommitForwardFlows(n, l, c.phase.g, y.live, y.handler);
    } else {
      forall tag | tag in y.live && c.phase.Backward?
        ensures tag.group < c.phase.g
      {
        var a :| a in y.handles && y.handles[a] == Tagged(tag);
      }
      EnterBackward(n, l, c.phase, y.live, y.handler);
      CommitBackwardFlows(n, l, c.phase, y.live, y.handler);
    }
  }

  lemma StepFlows(n: nat, l: nat, c: Client, y: AsyncSystem)
    requires 0 < n <= l && c.phase == Backward(0) && DeliveryOk(n, l, c, y)
    ensures DeliveryOk(n, l, START, y)
    ensures After(c, NextStep) == START && AsyncStep(n, l, c, y, NextStep) == Ok((y, None))
  {
    var trace := y.handler.streams.trace;
    forall j: nat, k: nat | j < |trace| && k < n && trace[j].kind == Produce(k)
      ensures FlowAt(0, true, y.live, y.handler.backups, trace, j, k)
    {
      assert FlowAt(0, false, y.live, y.handler.backups, trace, j, k);
    }
  }

  lemma {:induction false} RunFlows(n: nat, l: nat, c: Client, y: AsyncSystem, es: seq<Event>)
    requires 0 < n <= l && (n < l || l == 1)
    requires AsyncOk(n, l, c, y) && DeliveryOk(n, l, c, y) && WellFormedRun(l, c, es)
    ensures var r := AsyncRun(n, l, c, y, es);
            r.Ok? && DeliveryOk(n, l, Final(c, es), r.value.0)
    decreases |es|
  {
    hide AsyncOk, DeliveryOk, AsyncStep, WellFormed;
    if es != [] {
      var e := es[0];
      AsyncKeeps(n, l, c, y, e);
      match e {
        case Save(item) => SaveFlows(n, l, c, y, item);
        case Fetch(a) => FetchFlows(n, l, c, y, a);
        case NextStep => StepFlows(n, l, c, y);
        case _ => CommitFlows(n, l, c, y, e);
      }
      RunFlows(n, l, After(c, e), AsyncStep(n, l, c, y, e).value.0, es[1..]);
    }
  }

  // In every run of a handler that leaves some group on the device, or has one group only: every copy, dropped entry
  // and use is ordered after what it depends on, and what it depends on is there.
  lemma RunsAreStreamSafe(n: nat, l: nat, es: seq<Event>)
    requires 0 < n <= l && (n < l || l == 1) && WellFormedRun(l, START, es)
    ensures var r := AsyncRun(n, l, START, ASYNC_START, es);
            r.Ok? && SafeTrace(r.value.0.handler.streams.trace) && Delivered(n, r.value.0.handler.streams.trace)
  {
    hide AsyncRun, WellFormedRun, SafeTrace;
    StartOk(n, l);
    RunsAreOrdered(n, l, es);
    RunFlows(n, l, START, ASYNC_START, es);
  }

  // ------------------------------------------------------------------ and only then

  // Group 1 saves one tensor and is committed.
  const EARLY_RELEASE := [CommitFwd, Save(ONE_VALUE), CommitFwd]

  // A window that closes drops its group's buffer entries at once.
  lemma CommitReleases(n: nat, l: nat, s: State)
    requires s.current > 0 && s.offloaded in WindowMap(n, l) && WindowMap(n, l)[s.offloaded] == s.current
    requires s.offloaded >= 0 && CommitForward(n, l, s).Ok?
    ensures var trace, after := s.streams.trace, CommitForward(n, l, s).value.streams.trace;
            |after| > |trace| && trace <= after && after[|trace|].kind == Free(s.offloaded)
  {
    hide WindowMap, MovedOff, BackupOf;
  }

  lemma SaveIssues(n: nat, l: nat, c: Client, y: AsyncSystem)
    requires AsyncStep(n, l, c, y, Save(ONE_VALUE)).Ok?
    ensures var trace := y.handler.streams.trace;
            AsyncStep(n, l, c, y, Save(ONE_VALUE)).value.0.handler.streams.trace ==
            trace + [Op(Produce(y.handler.current), Compute, y.handler.streams.Known(Compute))]
  {
  }

  lemma Counters(n: nat, l: nat, c: Client, y: AsyncSystem)
    requires 0 < n <= l && AsyncOk(n, l, c, y) && c.phase.Forward?
    ensures y.handler.current == c.phase.g && y.handler.offloaded == Closed(n, l, c.phase.g)
  {
  }

  // Its buffer entries are dropped right after it was produced, nothing of it is ever copied out...
  ghost predicate DroppedUncopied(trace: seq<Op>, k: nat) {
    && (exists i :: 0 < i < |trace| && trace[i - 1].kind == Produce(k) && trace[i].kind == Free(k))
    && (forall m :: 0 <= m < |trace| ==> trace[m].kind != CopyOut(k))
  }

  // ... and its tensor stays on the device, held by the other dictionary.
  ghost predicate HeldBySlotOnly(s: State, k: nat, t: Tensor) {
    exists tag :: tag in s.slots && tag in s.bufs && tag.group == k && s.slots[tag] == OnDevice(t) && s.bufs[tag].Freed?
  }

  lemma StaysOnDevice(l: nat, c: Client, y: AsyncSystem)
    requires l > 1 && AsyncOk(l, l, c, y) && c.phase == Forward(2)
    requires Act(1, 0) in c.saved && c.saved[Act(1, 0)] == ONE_VALUE
    ensures HeldBySlotOnly(y.handler, 1, ONE_VALUE.tensor)
    ensures forall m :: 0 <= m < |y.handler.streams.trace| ==> y.handler.streams.trace[m].kind != CopyOut(1)
  {
    hide LiveOk, CountersOk, BackupsOk, Closed, Window;
    ClosedBehind(l, l, 2);
    var tag := y.handles[Act(1, 0)].tag;
    assert SlotOk(l, l, Top(l, l, c.phase), true, 1, y.live[tag], y.handler.slots[tag], y.handler.backups);
    assert tag in y.handler.bufs && y.handler.bufs[tag].Freed?;
  }

  lemma EarlyRelease(l: nat)
    requires l > 1
    ensures WellFormedRun(l, START, EARLY_RELEASE)
    ensures var r := AsyncRun(l, l, START, ASYNC_START, EARLY_RELEASE);
            r.Ok? && !Delivered(l, r.value.0.handler.streams.trace)
            && DroppedUncopied(r.value.0.handler.streams.trace, 1)
            && HeldBySlotOnly(r.value.0.handler, 1, ONE_VALUE.tensor)
  {
    hide AsyncOk, AsyncStep, CommitForward, Closed, Window, HeldBySlotOnly;
    StartOk(l, l);
    assert WellFormed(ONE_VALUE.tensor);
    var c1 := After(START, CommitFwd);
    var c2 := After(c1, Save(ONE_VALUE));
    AsyncKeeps(l, l, START, ASYNC_START, CommitFwd);
    var y1 := AsyncStep(l, l, START, ASYNC_START, CommitFwd).value.0;
    AsyncKeeps(l, l, c1, y1, Save(ONE_VALUE));
    var y2 := AsyncStep(l, l, c1, y1, Save(ONE_VALUE)).value.0;
    AsyncKeeps(l, l, c2, y2, CommitFwd);
    var y3 := AsyncStep(l, l, c2, y2, CommitFwd).value.0;
    ThreeSteps(l, l, START, ASYNC_START, CommitFwd, Save(ONE_VALUE), CommitFwd);
    assert EARLY_RELEASE == [CommitFwd, Save(ONE_VALUE), CommitFwd];
    SaveIssues(l, l, c1, y1);
    Counters(l, l, c1, y1);
    Counters(l, l, c2, y2);
    ClosedBehind(l, l, 1);
    WindowAhead(l, l, 1);
    CommitStep(l, l, c2, y2);
    CommitReleases(l, l, y2.handler);
    NothingBetween(l, y3.handler.streams.trace, |y2.handler.streams.trace|);
    StaysOnDevice(l, After(c2, CommitFwd), y3);
  }

  lemma CommitStep(n: nat, l: nat, c: Client, y: AsyncSystem)
    requires AsyncStep(n, l, c, y, CommitFwd).Ok?
    ensures CommitForward(n, l, y.handler).Ok?
    ensures AsyncStep(n, l, c, y, CommitFwd).value.0.handler == CommitForward(n, l, y.handler).value
  {
    hide CommitForward;
  }

  lemma NothingBetween(n: nat, trace: seq<Op>, i: nat)
    requires 0 < i < |trace| && trace[i - 1].kind == Produce(1) && trace[i].kind == Free(1)
    ensures !Delivered(n, trace)
  {
    assert !Between(trace, i - 1, i, CopyOut(1));
    assert !DeliveredAt(n, trace, i);
  }

  lemma ThreeSteps(n: nat, l: nat, c: Client, y: AsyncSystem, e: Event, f: Event, g: Event)
    requires var c1 := After(c, e); var c2 := After(c1, f);
             Enabled(l, c, e) && Enabled(l, c1, f) && Enabled(l, c2, g)
    requires AsyncStep(n, l, c, y, e).Ok?
    requires AsyncStep(n, l, After(c, e), AsyncStep(n, l, c, y, e).value.0, f).Ok?
    requires var y1 := AsyncStep(n, l, c, y, e).value.0;
             var y2 := AsyncStep(n, l, After(c, e), y1, f).value.0;
             AsyncStep(n, l, After(After(c, e), f), y2, g).Ok?
    ensures WellFormedRun(l, c, [e, f, g])
    ensures var y1 := AsyncStep(n, l, c, y, e).value.0;
            var y2 := AsyncStep(n, l, After(c, e), y1, f).value.0;
            var r := AsyncRun(n, l, c, y, [e, f, g]);
            r.Ok? && r.value.0 == AsyncStep(n, l, After(After(c, e), f), y2, g).value.0
  {
    hide AsyncStep, Enabled, After;
    assert [e, f, g][1..] == [f, g] && [f, g][1..] == [g] && [g][1..] == [];
    var c1 := After(c, e);
    var c2 := After(c1, f);
    var y1 := AsyncStep(n, l, c, y, e).value.0;
    var y2 := AsyncStep(n, l, c1, y1, f).value.0;
    assert WellFormedRun(l, c2, [g]) && WellFormedRun(l, c1, [f, g]);
    var y3 := AsyncStep(n, l, c2, y2, g).value.0;
    assert AsyncRun(n, l, After(c2, g), y3, []).value.0 == y3;
    assert AsyncRun(n, l, c2, y2, [g]).Ok? && AsyncRun(n, l, c2, y2, [g]).value.0 == y3;
    assert AsyncRun(n, l, c1, y1, [f, g]).Ok? && AsyncRun(n, l, c1, y1, [f, g]).value.0 == y3;
  }

  // Stream safety holds of every run exactly when some group is not to be offloaded or there is one group only.
  lemma StreamSafeExactlyWhen(n: nat, l: nat)
    requires 0 < n <= l
    ensures (forall es :: WellFormedRun(l, START, es) ==>
               var r := AsyncRun(n, l, START, ASYNC_START, es);
               r.Ok? && SafeTrace(r.value.0.handler.streams.trace) && Delivered(n, r.value.0.handler.streams.trace))
            <==> n < l || l == 1
  {
    hide AsyncRun, WellFormedRun, SafeTrace, Delivered;
    if n < l || l == 1 {
      forall es | WellFormedRun(l, START, es)
        ensures var r := AsyncRun(n, l, START, ASYNC_START, es);
                r.Ok? && SafeTrace(r.value.0.handler.streams.trace) && Delivered(n, r.value.0.handler.streams.trace)
      {
        RunsAreStreamSafe(n, l, es);
      }
    } else {
      EarlyRelease(l);
    }
  }
}
