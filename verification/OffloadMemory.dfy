/** Device memory: how many activation groups occupy the device at any moment of a run. */
module OffloadMemory {
  import opened OffloadWindow
  import opened OffloadModel
  import opened OffloadInvariant
  import opened OffloadRuns

  // ------------------------------------------------------------------ at most

  // Groups with a tensor that a device reference still keeps alive.
  function DeviceGroups(s: State): set<int> {
    (set tag | tag in s.slots && s.slots[tag].OnDevice? :: tag.group)
    + (set tag | tag in s.bufs && s.bufs[tag].Held? :: tag.group)
  }

  function Interval(lo: int, hi: int): (r: set<int>)
    requires lo <= hi
    ensures forall k :: k in r <==> lo <= k < hi
    ensures |r| == hi - lo
    decreases hi - lo
  {
    if lo == hi then {} else Interval(lo, hi - 1) + {hi - 1}
  }

  lemma SubsetSize(a: set<int>, b: set<int>)
    requires a <= b
    ensures |a| <= |b|
  {
    assert b == a + (b - a);
  }

  // Only the groups between the closed windows and the current one can be on the device.
  lemma DeviceWindow(n: nat, l: nat, ph: Phase, live: map<Tag, Tensor>, s: State)
    requires 0 < n < l && Inv(n, l, ph, live, s)
    ensures forall k :: k in DeviceGroups(s) ==> Closed(n, l, ph.g) <= k <= ph.g && k < l
  {
    hide StreamsOk, BackupsOk, SlotOk, Closed, Window;
    forall k | k in DeviceGroups(s)
      ensures Closed(n, l, ph.g) <= k <= ph.g && k < l
    {
      if tag :| tag in s.slots && s.slots[tag].OnDevice? && tag.group == k {
        DeviceSlot(n, l, ph, live, s, tag);
      } else {
        var tag :| tag in s.bufs && s.bufs[tag].Held? && tag.group == k;
      }
    }
  }

  lemma DeviceSlot(n: nat, l: nat, ph: Phase, live: map<Tag, Tensor>, s: State, tag: Tag)
    requires 0 < n < l && Inv(n, l, ph, live, s)
    requires tag in s.slots && s.slots[tag].OnDevice?
    ensures Closed(n, l, ph.g) <= tag.group <= ph.g && tag.group < l
  {
    hide StreamsOk, BufsOk;
    assert SlotOk(n, l, Top(n, l, ph), ph.Forward?, tag.group, live[tag], s.slots[tag], s.backups);
    ClosedBehind(n, l, 0);
  }

  // When every group is to be offloaded, only group 0 leaves the device before it is used.
  lemma FullDeviceWindow(l: nat, ph: Phase, live: map<Tag, Tensor>, s: State)
    requires 0 < l && Inv(l, l, ph, live, s)
    ensures forall k :: k in DeviceGroups(s) ==> k <= ph.g && k < l && (ph.g > 0 ==> 0 < k) && 0 <= k
  {
    hide StreamsOk, BackupsOk, SlotOk, Closed, Window;
    ClosedBehind(l, l, ph.g);
    forall k | k in DeviceGroups(s)
      ensures k <= ph.g && k < l && (ph.g > 0 ==> 0 < k) && 0 <= k
    {
      if tag :| tag in s.slots && s.slots[tag].OnDevice? && tag.group == k {
        FullDeviceSlot(l, ph, live, s, tag);
      } else {
        var tag :| tag in s.bufs && s.bufs[tag].Held? && tag.group == k;
      }
    }
  }

  lemma FullDeviceSlot(l: nat, ph: Phase, live: map<Tag, Tensor>, s: State, tag: Tag)
    requires 0 < l && Inv(l, l, ph, live, s)
    requires tag in s.slots && s.slots[tag].OnDevice?
    ensures tag.group <= ph.g && tag.group < l && (ph.g > 0 ==> tag.group > 0)
  {
    hide StreamsOk, BufsOk;
    assert SlotOk(l, l, Top(l, l, ph), ph.Forward?, tag.group, live[tag], s.slots[tag], s.backups);
    ClosedBehind(l, l, ph.g);
  }

  // The largest number of groups on the device.
  function MostGroups(n: nat, l: nat): int {
    if n < l then l - n + 1 else if l > 1 then l - 1 else 1
  }

  // At every moment of every run at most that many groups occupy the device.
  lemma DeviceBound(n: nat, l: nat, es: seq<Event>)
    requires 0 < n <= l && WellFormedRun(l, START, es)
    ensures var r := AsyncRun(n, l, START, ASYNC_START, es);
            r.Ok? && |DeviceGroups(r.value.0.handler)| <= MostGroups(n, l)
  {
    hide AsyncRun, WellFormedRun, Inv, DeviceGroups, Window;
    StartOk(n, l);
    AsyncRunCorrect(n, l, START, ASYNC_START, es);
    var c, y := Final(START, es), AsyncRun(n, l, START, ASYNC_START, es).value.0;
    InRangeHere(n, l, c.phase, y.live, y.handler);
    ClosedBehind(n, l, c.phase.g);
    ClosedAtEnd(n, l, l);
    var hi := if c.phase.g < l then c.phase.g + 1 else l;
    if n < l {
      DeviceWindow(n, l, c.phase, y.live, y.handler);
      SubsetSize(DeviceGroups(y.handler), Interval(Closed(n, l, c.phase.g), hi));
    } else {
      FullDeviceWindow(l, c.phase, y.live, y.handler);
      SubsetSize(DeviceGroups(y.handler), Interval(if c.phase.g > 0 then 1 else 0, hi));
    }
  }

  lemma InRangeHere(n: nat, l: nat, ph: Phase, live: map<Tag, Tensor>, s: State)
    requires 0 < n <= l && Inv(n, l, ph, live, s)
    ensures InRange(l, ph)
  {
  }

  // The configuration that enable_activation_offloading builds: at most two groups.
  lemma AtMostTwoGroups(layers: nat, es: seq<Event>)
    requires layers >= 3 && WellFormedRun(layers, START, es)
    ensures var r := AsyncRun(layers - 1, layers, START, ASYNC_START, es);
            r.Ok? && |DeviceGroups(r.value.0.handler)| <= 2
  {
    hide AsyncRun, WellFormedRun, DeviceGroups;
    DeviceBound(layers - 1, layers, es);
  }

  // With every group to be offloaded the windows close too early: only group 0 ever leaves the device.
  lemma FullOffloadMovesOneGroup(l: nat, ph: Phase, live: map<Tag, Tensor>, s: State)
    requires 0 < l && Inv(l, l, ph, live, s)
    ensures forall tag :: tag in live && tag.group > 0 ==> tag in s.slots && s.slots[tag].OnDevice?
  {
    forall tag | tag in live && tag.group > 0
      ensures tag in s.slots && s.slots[tag].OnDevice?
    {
      assert SlotOk(l, l, Top(l, l, ph), ph.Forward?, tag.group, live[tag], s.slots[tag], s.backups);
    }
  }

  // ------------------------------------------------------------------ and exactly that many

  lemma {:induction false} RunThen(l: nat, c: Client, a: seq<Event>, b: seq<Event>)
    ensures WellFormedRun(l, c, a + b) <==> WellFormedRun(l, c, a) && WellFormedRun(l, Final(c, a), b)
    ensures Final(c, a + b) == Final(Final(c, a), b)
    decreases |a|
  {
    if a == [] {
      assert a + b == b;
    } else {
      assert (a + b)[0] == a[0] && (a + b)[1..] == a[1..] + b;
      RunThen(l, After(c, a[0]), a[1..], b);
    }
  }

  // One tensor saved in each of the groups 0..g-1.
  function Filling(g: nat): seq<Event> {
    if g == 0 then [] else Filling(g - 1) + [Save(ONE_VALUE), CommitFwd]
  }

  function Filled(g: nat): map<Act, Saved> {
    map k: nat | 0 <= k < g :: Act(k, 0) := ONE_VALUE
  }

  lemma {:induction false} FillingRuns(l: nat, g: nat)
    requires g <= l
    ensures WellFormedRun(l, START, Filling(g)) && Final(START, Filling(g)) == Client(Forward(g), 0, Filled(g))
  {
    if g > 0 {
      FillingRuns(l, g - 1);
      FilledMore(g);
      hide Filled;
      MoreRuns(l, Filling(g - 1), g - 1, Filled(g - 1));
    }
  }

  // A run that is extended by one group.
  lemma MoreRuns(l: nat, es: seq<Event>, g: nat, saved: map<Act, Saved>)
    requires g < l && WellFormedRun(l, START, es) && Final(START, es) == Client(Forward(g), 0, saved)
    requires forall a :: a in saved ==> a.group < g
    ensures WellFormedRun(l, START, es + [Save(ONE_VALUE), CommitFwd])
    ensures WellFormedRun(l, START, es + [Save(ONE_VALUE)])
    ensures Final(START, es + [Save(ONE_VALUE), CommitFwd]) == Client(Forward(g + 1), 0, saved[Act(g, 0) := ONE_VALUE])
    ensures Final(START, es + [Save(ONE_VALUE)]) == Client(Forward(g), 1, saved[Act(g, 0) := ONE_VALUE])
  {
    OneMore(l, Client(Forward(g), 0, saved));
    RunThen(l, START, es, [Save(ONE_VALUE), CommitFwd]);
    RunThen(l, START, es, [Save(ONE_VALUE)]);
    hide WellFormedRun, Final;
  }

  lemma FilledMore(g: nat)
    requires g > 0
    ensures Filled(g) == Filled(g - 1)[Act(g - 1, 0) := ONE_VALUE]
    ensures forall a :: a in Filled(g - 1) ==> a.group < g - 1
  {
  }

  lemma RunOne(l: nat, c: Client, e: Event)
    ensures WellFormedRun(l, c, [e]) <==> Enabled(l, c, e)
    ensures Final(c, [e]) == After(c, e)
  {
    assert [e][1..] == [];
  }

  lemma OneMore(l: nat, c: Client)
    requires c.phase.Forward? && c.phase.g < l && forall a :: a in c.saved ==> a.group < c.phase.g
    ensures WellFormedRun(l, c, [Save(ONE_VALUE), CommitFwd]) && WellFormedRun(l, c, [Save(ONE_VALUE)])
    ensures Final(c, [Save(ONE_VALUE)]) == After(c, Save(ONE_VALUE))
    ensures Final(c, [Save(ONE_VALUE), CommitFwd]) == After(After(c, Save(ONE_VALUE)), CommitFwd)
  {
    assert WellFormed(ONE_VALUE.tensor);
    RunOne(l, c, Save(ONE_VALUE));
    var c' := After(c, Save(ONE_VALUE));
    RunOne(l, c', CommitFwd);
    RunThen(l, c, [Save(ONE_VALUE)], [CommitFwd]);
    assert [Save(ONE_VALUE), CommitFwd] == [Save(ONE_VALUE)] + [CommitFwd];
  }

  // Every group holds a tensor and the last one is not committed yet.
  function FullHouse(l: nat): seq<Event>
    requires l > 0
  {
    Filling(l - 1) + [Save(ONE_VALUE)]
  }

  lemma FullHouseRuns(l: nat)
    requires l > 0
    ensures WellFormedRun(l, START, FullHouse(l))
    ensures var c := Final(START, FullHouse(l));
            c.phase == Forward(l - 1) && forall k: nat :: k < l ==>
              Act(k, 0) in c.saved && c.saved[Act(k, 0)] == ONE_VALUE
  {
    FillingRuns(l, l - 1);
    FilledMore(l);
    MoreRuns(l, Filling(l - 1), l - 1, Filled(l - 1));
    hide WellFormedRun, Final;
    assert forall k: nat :: k < l ==> Act(k, 0) in Filled(l) && Filled(l)[Act(k, 0)] == ONE_VALUE;
  }

  // At that point the windows of all groups that can be freed early enough have closed.
  lemma ClosedBeforeLast(n: nat, l: nat)
    requires 0 < n <= l
    ensures Closed(n, l, l - 1) == n - 1
  {
    ClosedAtEnd(n, l, l - 1);
    ClosedAtEnd(n, l, l);
  }

  lemma StillOnDevice(n: nat, l: nat, live: map<Tag, Tensor>, s: State, tag: Tag)
    requires 0 < n <= l && Inv(n, l, Forward(l - 1), live, s) && tag in live
    requires if n < l then tag.group >= n - 1 else tag.group > 0 || l == 1
    ensures tag.group in DeviceGroups(s)
  {
    hide StreamsOk, BackupsOk;
    ClosedBeforeLast(n, l);
    assert SlotOk(n, l, Top(n, l, Forward(l - 1)), true, tag.group, live[tag], s.slots[tag], s.backups);
    if tag.group < n && tag.group >= n - 1 {
      assert s.bufs[tag] == Held(live[tag]);
    }
  }

  // The bound is reached.
  lemma DeviceBoundReached(n: nat, l: nat)
    requires 0 < n <= l
    ensures WellFormedRun(l, START, FullHouse(l))
    ensures var r := AsyncRun(n, l, START, ASYNC_START, FullHouse(l));
            r.Ok? && |DeviceGroups(r.value.0.handler)| == MostGroups(n, l)
  {
    hide AsyncRun, WellFormedRun, Inv, DeviceGroups, FullHouse, Linked;
    FullHouseRuns(l);
    StartOk(n, l);
    var es := FullHouse(l);
    AsyncRunCorrect(n, l, START, ASYNC_START, es);
    DeviceBound(n, l, es);
    var c, y := Final(START, es), AsyncRun(n, l, START, ASYNC_START, es).value.0;
    var lo := if n < l then n - 1 else if l > 1 then 1 else 0;
    forall k | lo <= k < l
      ensures k in DeviceGroups(y.handler)
    {
      var tag := HandleOf(c, y.handles, y.live, k);
      StillOnDevice(n, l, y.live, y.handler, tag);
    }
    SubsetSize(Interval(lo, l), DeviceGroups(y.handler));
  }

  lemma HandleOf(c: Client, handles: map<Act, Handle>, live: map<Tag, Tensor>, k: nat) returns (tag: Tag)
    requires Linked(c, handles, live) && Act(k, 0) in c.saved && c.saved[Act(k, 0)].Tracked()
    ensures tag in live && tag.group == k
  {
    tag := handles[Act(k, 0)].tag;
  }

  // "At most two groups" holds of every run exactly for one offloaded group less than there are groups, and for
  // three groups or fewer that are all to be offloaded.
  lemma AtMostTwoExactlyWhen(n: nat, l: nat)
    requires 0 < n <= l
    ensures (forall es :: WellFormedRun(l, START, es) ==>
               var r := AsyncRun(n, l, START, ASYNC_START, es); r.Ok? && |DeviceGroups(r.value.0.handler)| <= 2)
            <==> n == l - 1 || (n == l && l <= 3)
  {
    hide AsyncRun, WellFormedRun, DeviceGroups, FullHouse;
    DeviceBoundReached(n, l);
    forall es | WellFormedRun(l, START, es)
      ensures var r := AsyncRun(n, l, START, ASYNC_START, es);
              r.Ok? && |DeviceGroups(r.value.0.handler)| <= MostGroups(n, l)
    {
      DeviceBound(n, l, es);
    }
  }
}
