/** Copies that overlap with computation: each kind of operation runs on its own stream, and the compute stream waits
    for a copy out only when it drops the group's buffer entries. */
module OffloadOverlap {
  import opened Wrappers
  import opened OffloadWindow
  import opened OffloadModel
  import opened OffloadInvariant
  import opened OffloadRuns
  import opened OffloadDelivery

  // ------------------------------------------------------------------ what overlaps

  predicate OnOwnStream(op: Op) {
    match op.kind
    case CopyOut(_) => op.stream == DeviceToHost
    case CopyIn(_) => op.stream == HostToDevice
    case _ => op.stream == Compute
  }

  // Copy out m, before operation i of the compute stream, is only waited for if i drops its group's entries or
  // comes after an operation that has.
  ghost predicate WaitsToDrop(trace: seq<Op>, m: nat, i: nat)
    requires m < i < |trace|
  {
    trace[m].kind.CopyOut? && trace[i].stream == Compute && m in trace[i].after ==>
      exists f :: m < f <= i && trace[f].kind == Free(trace[m].kind.group)
  }

  ghost predicate Overlaps(trace: seq<Op>) {
    && (forall i :: 0 <= i < |trace| ==> OnOwnStream(trace[i]))
    && (forall m: nat, i: nat :: m < i < |trace| ==> WaitsToDrop(trace, m, i))
  }

  // ------------------------------------------------------------------ what is invariant

  ghost predicate Issued(st: Streams) {
    forall s, m :: m in st.Known(s) ==> m < |st.trace|
  }

  // Every copy out, except those of group `out`, is followed by the drop of its group's entries, and so is every one
  // that the compute stream has waited for.
  ghost predicate DroppedAt(out: int, st: Streams, m: nat)
    requires m < |st.trace|
  {
    st.trace[m].kind.CopyOut? && (st.trace[m].kind.group != out || m in st.Known(Compute)) ==>
      Later(st.trace, m, Free(st.trace[m].kind.group))
  }

  ghost predicate Overlapping(out: int, st: Streams) {
    && Issued(st) && Overlaps(st.trace)
    && (forall m: nat :: m < |st.trace| ==> DroppedAt(out, st, m))
  }

  // ------------------------------------------------------------------ streams

  lemma IssuedBefore(st: Streams, s: Stream, m: nat)
    requires Issued(st) && m in st.Known(s)
    ensures m < |st.trace|
  {
  }

  lemma IssueKnown(st: Streams, s: Stream, kind: Kind)
    requires Issued(st)
    ensures Issued(st.Issue(s, kind)) && |st.trace| !in st.Known(Compute)
    ensures forall r :: st.Issue(s, kind).Known(r) == st.Known(r) + if r == s then {|st.trace|} else {}
  {
    var next := st.Issue(s, kind);
    forall r, m | m in next.Known(r)
      ensures m < |next.trace|
    {
      if m in st.Known(r) {
        IssuedBefore(st, r, m);
      }
    }
  }

  lemma WaitKnown(st: Streams, a: Stream, b: Stream)
    requires Issued(st)
    ensures Issued(st.Wait(a, b))
    ensures forall r :: st.Wait(a, b).Known(r) == st.Known(r) + if r == a then st.Known(b) else {}
  {
    var next := st.Wait(a, b);
    forall r, m | m in next.Known(r)
      ensures m < |next.trace|
    {
      if m in st.Known(r) {
        IssuedBefore(st, r, m);
      } else {
        IssuedBefore(st, b, m);
      }
    }
  }

  lemma OverlapsKept(st: Streams, s: Stream, kind: Kind)
    requires Overlaps(st.trace) && OnOwnStream(Op(kind, s, st.Known(s)))
    requires s == Compute ==> forall m: nat :: m < |st.trace| && st.trace[m].kind.CopyOut? && m in st.Known(Compute) ==>
               Later(st.trace, m, Free(st.trace[m].kind.group)) || kind == Free(st.trace[m].kind.group)
    ensures Overlaps(st.Issue(s, kind).trace)
  {
    var trace, after := st.trace, st.Issue(s, kind).trace;
    forall m: nat, i: nat | m < i < |after|
      ensures WaitsToDrop(after, m, i)
    {
      if i < |trace| {
        assert WaitsToDrop(trace, m, i);
        if f :| m < f <= i && trace[f].kind == Free(trace[m].kind.group) {
          assert after[f] == trace[f];
        }
      } else if kind == Free(trace[m].kind.group) {
        assert after[|trace|].kind == Free(after[m].kind.group);
      } else if f :| m < f < |trace| && trace[f].kind == Free(trace[m].kind.group) {
        assert after[f] == trace[f];
      }
    }
  }

  // An operation of the compute stream, or a copy back.
  lemma IssueOverlaps(out: int, st: Streams, s: Stream, kind: Kind)
    requires Overlapping(out, st) && !kind.CopyOut? && OnOwnStream(Op(kind, s, {}))
    ensures Overlapping(out, st.Issue(s, kind))
  {
    forall m: nat | m < |st.trace| && st.trace[m].kind.CopyOut? && m in st.Known(Compute)
      ensures Later(st.trace, m, Free(st.trace[m].kind.group))
    {
      assert DroppedAt(out, st, m);
    }
    OverlapsKept(st, s, kind);
    IssueKnown(st, s, kind);
    var next := st.Issue(s, kind);
    forall m: nat | m < |next.trace|
      ensures DroppedAt(out, next, m)
    {
      if m < |st.trace| {
        assert DroppedAt(out, st, m);
        LaterKept(st.trace, next.trace, m, Free(st.trace[m].kind.group));
      }
    }
  }

  lemma CopyOverlaps(out: int, st: Streams, k: nat)
    requires Overlapping(out, st) && (out == k || out == NOTHING)
    ensures Overlapping(k, st.Issue(DeviceToHost, CopyOut(k)))
  {
    OverlapsKept(st, DeviceToHost, CopyOut(k));
    IssueKnown(st, DeviceToHost, CopyOut(k));
    var next := st.Issue(DeviceToHost, CopyOut(k));
    forall m: nat | m < |next.trace|
      ensures DroppedAt(k, next, m)
    {
      if m < |st.trace| {
        assert DroppedAt(out, st, m);
        LaterKept(st.trace, next.trace, m, Free(st.trace[m].kind.group));
      }
    }
  }

  // A wait of another stream, or of the compute stream when nothing is to be dropped any more.
  lemma WaitOverlaps(out: int, st: Streams, a: Stream, b: Stream)
    requires Overlapping(out, st) && (a != Compute || out == NOTHING)
    ensures Overlapping(out, st.Wait(a, b))
  {
    WaitKnown(st, a, b);
    var next := st.Wait(a, b);
    forall m: nat | m < |next.trace|
      ensures DroppedAt(out, next, m)
    {
      assert DroppedAt(out, st, m);
    }
  }

  // The compute stream waits for the copies and drops the entries of the group that is being copied.
  lemma DropOverlaps(out: nat, st: Streams)
    requires Overlapping(out, st)
    ensures Overlapping(NOTHING, st.Wait(Compute, DeviceToHost).Issue(Compute, Free(out)))
  {
    var waited := st.Wait(Compute, DeviceToHost);
    var next := waited.Issue(Compute, Free(out));
    forall m: nat | m < |st.trace| && st.trace[m].kind.CopyOut?
      ensures Later(st.trace, m, Free(st.trace[m].kind.group)) || st.trace[m].kind.group == out
    {
      assert DroppedAt(out, st, m);
    }
    WaitKnown(st, Compute, DeviceToHost);
    OverlapsKept(waited, Compute, Free(out));
    IssueKnown(waited, Compute, Free(out));
    forall m: nat | m < |next.trace|
      ensures DroppedAt(NOTHING, next, m)
    {
      if m < |st.trace| && st.trace[m].kind.CopyOut? {
        LaterKept(st.trace, next.trace, m, Free(st.trace[m].kind.group));
        assert next.trace[|st.trace|].kind == Free(out);
      }
    }
  }

  lemma Widen(out: int, st: Streams)
    requires Overlapping(NOTHING, st)
    ensures Overlapping(out, st)
  {
    forall m: nat | m < |st.trace|
      ensures DroppedAt(out, st, m)
    {
      assert DroppedAt(NOTHING, st, m);
    }
  }

  // ------------------------------------------------------------------ the handler's transitions

  lemma OffloadOverlaps(out: int, s: State, k: nat)
    requires Overlapping(out, s.streams) && (out == k || out == NOTHING) && BulkOffload(s, k).Ok?
    ensures Overlapping(k, BulkOffload(s, k).value.streams)
  {
    hide Overlapping, MovedOff, BackupOf;
    if AnyIn(s.slots, k) {
      CopyOverlaps(out, s.streams, k);
    } else if out == NOTHING {
      Widen(k, s.streams);
    }
  }

  lemma CloseWindowOverlaps(n: nat, s: State)
    requires s.offloaded >= 0 && Overlapping(s.offloaded, s.streams) && CloseWindow(n, s).Ok?
    ensures Overlapping(s.offloaded + 1, CloseWindow(n, s).value.streams)
  {
    hide Overlapping, BulkOffload;
    var st := s.streams.Wait(DeviceToHost, Compute);
    WaitOverlaps(s.offloaded, s.streams, DeviceToHost, Compute);
    DropOverlaps(s.offloaded, st);
    if s.offloaded < n - 1 {
      OffloadOverlaps(NOTHING, Uncover(s), s.offloaded + 1);
    } else {
      Widen(s.offloaded + 1, Uncover(s).streams);
    }
  }

  lemma KickstartOverlaps(s: State, out: int)
    requires Overlapping(out, s.streams) && (s.current == 0 ==> out == 0) && Kickstart(s).Ok?
    ensures Overlapping(out, Kickstart(s).value.streams)
  {
    hide Overlapping, BulkOffload;
    if s.current == 0 {
      WaitOverlaps(out, s.streams, DeviceToHost, Compute);
      OffloadOverlaps(0, s.(streams := s.streams.Wait(DeviceToHost, Compute)), 0);
    }
  }

  lemma CommitForwardOverlaps(n: nat, l: nat, g: nat, live: map<Tag, Tensor>, s: State)
    requires 0 < n <= l && g < l && Inv(n, l, Forward(g), live, s)
    requires Overlapping(Closed(n, l, g), s.streams)
    ensures CommitForward(n, l, s).Ok?
    ensures Overlapping(Closed(n, l, g + 1), CommitForward(n, l, s).value.streams)
  {
    hide Committing, Inv, Kickstart, CloseWindow, Overlapping;
    KickstartKeeps(n, l, g, live, s);
    KickstartOverlaps(s, Closed(n, l, g));
    ClosedAtEnd(n, l, g);
    ClosedBehind(n, l, g);
    var c := Closed(n, l, g);
    if Window(n, l, c) == g {
      CloseWindowKeeps(n, l, g, c, live, Kickstart(s).value);
      CloseWindowOverlaps(n, Kickstart(s).value);
    }
  }

  lemma OpenWindowOverlaps(n: nat, s: State)
    requires s.offloaded > 0 && Overlapping(NOTHING, s.streams) && OpenWindow(n, s).Ok?
    ensures Overlapping(NOTHING, OpenWindow(n, s).value.streams)
  {
    hide Overlapping, Restored, AllRecoverable;
    var st := s.streams.Wait(HostToDevice, Compute);
    WaitOverlaps(NOTHING, s.streams, HostToDevice, Compute);
    WaitOverlaps(NOTHING, st, Compute, HostToDevice);
    IssueOverlaps(NOTHING, st.Wait(Compute, HostToDevice), HostToDevice, CopyIn(s.offloaded - 1));
  }

  lemma CommitBackwardOverlaps(n: nat, l: nat, s: State)
    requires Overlapping(NOTHING, s.streams) && CommitBackward(n, l, s).Ok? && s.offloaded > 0
    ensures Overlapping(NOTHING, CommitBackward(n, l, s).value.streams)
  {
    hide Overlapping, OpenWindow, WindowMap;
    var s0 := s.(current := s.current - 1);
    var s1 := s0;
    if WindowMap(n, l)[s0.offloaded - 1] == s0.current {
      OpenWindowOverlaps(n, s0);
      s1 := OpenWindow(n, s0).value;
    }
    WaitOverlaps(NOTHING, s1.streams, Compute, HostToDevice);
  }

  // ------------------------------------------------------------------ whole runs

  function OutOf(n: nat, l: nat, ph: Phase): int
    requires n > 0
  {
    if ph.Forward? then Closed(n, l, ph.g) else NOTHING
  }

  ghost predicate OverlapOk(n: nat, l: nat, c: Client, y: AsyncSystem)
    requires n > 0
  {
    Overlapping(OutOf(n, l, c.phase), y.handler.streams)
  }

  // Once all windows have closed nothing is left to be dropped.
  lemma AllDropped(n: nat, l: nat, live: map<Tag, Tensor>, s: State)
    requires 0 < n <= l && Inv(n, l, Forward(l), live, s) && Overlapping(Closed(n, l, l), s.streams)
    ensures Overlapping(NOTHING, s.streams)
  {
    ClosedAtEnd(n, l, l);
    forall m: nat | m < |s.streams.trace|
      ensures DroppedAt(NOTHING, s.streams, m)
    {
      assert DroppedAt(n, s.streams, m);
    }
  }

  lemma SaveOverlaps(n: nat, l: nat, c: Client, y: AsyncSystem, item: Saved)
    requires 0 < n <= l && AsyncOk(n, l, c, y) && Enabled(l, c, Save(item)) && OverlapOk(n, l, c, y)
    ensures var r := AsyncStep(n, l, c, y, Save(item));
            r.Ok? && OverlapOk(n, l, After(c, Save(item)), r.value.0)
  {
    SaveKeeps(n, l, c, y, item);
    hide Overlapping, AsyncOk, OutOf, Enabled;
    IssueOverlaps(OutOf(n, l, c.phase), y.handler.streams, Compute, Produce(y.handler.current));
    if item.Tracked() {
      PushFields(n, y.handler, item.tensor);
    }
    hide Push;
    SaveStep(n, l, c, y, item);
    hide AsyncStep;
  }

  lemma FetchOverlaps(n: nat, l: nat, c: Client, y: AsyncSystem, a: Act)
    requires 0 < n <= l && AsyncOk(n, l, c, y) && Enabled(l, c, Fetch(a)) && OverlapOk(n, l, c, y)
    ensures var r := AsyncStep(n, l, c, y, Fetch(a));
            r.Ok? && OverlapOk(n, l, After(c, Fetch(a)), r.value.0)
  {
    FetchKeeps(n, l, c, y, a);
    var h := y.handles[a];
    HandleGroup(n, l, c, y, a);
    hide Inv, Overlapping, Linked, ClientOk, Enabled;
    IssueOverlaps(NOTHING, y.handler.streams, Compute, Use(a.group));
    if h.Tagged? {
      PopFields(y.handler, h.tag);
    }
    hide Pop;
  }

  lemma CommitOverlaps(n: nat, l: nat, c: Client, y: AsyncSystem, e: Event)
    requires 0 < n <= l && AsyncOk(n, l, c, y) && Enabled(l, c, e) && OverlapOk(n, l, c, y)
    requires e.CommitFwd? || e.CommitBwd?
    ensures var r := AsyncStep(n, l, c, y, e);
            r.Ok? && OverlapOk(n, l, After(c, e), r.value.0)
  {
    CommitKeeps(n, l, c, y, e);
    hide Inv, CommitForward, CommitBackward, Overlapping, Linked, ClientOk;
    if e.CommitFwd? {
      CommitForwardOverlaps(n, l, c.phase.g, y.live, y.handler);
      CommitStep(n, l, c, y);
    } else {
      if c.phase.Forward? {
        AllDropped(n, l, y.live, y.handler);
      }
      CounterPositive(n, l, c.phase, y.live, y.handler);
      CommitBackStep(n, l, c, y);
      CommitBackwardOverlaps(n, l, y.handler);
    }
    hide AsyncStep;
  }

  lemma CommitBackStep(n: nat, l: nat, c: Client, y: AsyncSystem)
    requires AsyncStep(n, l, c, y, CommitBwd).Ok?
    ensures CommitBackward(n, l, y.handler).Ok?
    ensures AsyncStep(n, l, c, y, CommitBwd).value.0.handler == CommitBackward(n, l, y.handler).value
  {
    hide CommitBackward;
  }

  lemma CounterPositive(n: nat, l: nat, ph: Phase, live: map<Tag, Tensor>, s: State)
    requires 0 < n <= l && Inv(n, l, ph, live, s) && ph.g > 0 && (ph.Forward? ==> ph.g == l)
    ensures s.offloaded > 0
  {
    hide SlotsOk, BackupsOk, BufsOk, StreamsOk, LiveOk;
    ClosedAtEnd(n, l, l);
  }

  lemma {:induction false} RunOverlaps(n: nat, l: nat, c: Client, y: AsyncSystem, es: seq<Event>)
    requires 0 < n <= l && AsyncOk(n, l, c, y) && OverlapOk(n, l, c, y) && WellFormedRun(l, c, es)
    ensures var r := AsyncRun(n, l, c, y, es);
            r.Ok? && OverlapOk(n, l, Final(c, es), r.value.0)
    decreases |es|
  {
    hide AsyncOk, AsyncStep, WellFormed, Overlapping;
    if es != [] {
      var e := es[0];
      AsyncKeeps(n, l, c, y, e);
      match e {
        case Save(item) => SaveOverlaps(n, l, c, y, item);
        case Fetch(a) => FetchOverlaps(n, l, c, y, a);
        case NextStep => Restart(n, l, c, y);
        case _ => CommitOverlaps(n, l, c, y, e);
      }
      RunOverlaps(n, l, After(c, e), AsyncStep(n, l, c, y, e).value.0, es[1..]);
    }
  }

  lemma Restart(n: nat, l: nat, c: Client, y: AsyncSystem)
    requires n > 0 && c.phase.Backward? && OverlapOk(n, l, c, y)
    ensures After(c, NextStep) == START && AsyncStep(n, l, c, y, NextStep) == Ok((y, None))
    ensures OverlapOk(n, l, START, y)
  {
    Widen(0, y.handler.streams);
  }

  // In every run copies and computation run on streams of their own, and the compute stream waits for a copy out
  // only when the copied group's entries are dropped: until then the copy overlaps with computation.
  lemma RunsOverlap(n: nat, l: nat, es: seq<Event>)
    requires 0 < n <= l && WellFormedRun(l, START, es)
    ensures var r := AsyncRun(n, l, START, ASYNC_START, es);
            r.Ok? && Overlaps(r.value.0.handler.streams.trace)
  {
    hide AsyncRun, WellFormedRun, Inv, Overlaps;
    StartOk(n, l);
    NothingIssued();
    RunOverlaps(n, l, START, ASYNC_START, es);
  }

  lemma NothingIssued()
    ensures Overlapping(0, NO_STREAMS)
  {
  }
}
