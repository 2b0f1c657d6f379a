/** Whole runs: a client that saves tensors going forward and fetches them going backward, step after step,
    against the asynchronous handler and against the synchronous one. */
module OffloadRuns {
  import opened Wrappers
  import opened OffloadModel
  import opened OffloadInvariant

  // ------------------------------------------------------------------ the client

  // The ordinal-th tensor saved in a group.
  datatype Act = Act(group: nat, ordinal: nat)

  // `need` is what tensor_need_offloading_checker says of the tensor.
  datatype Saved = Saved(tensor: Tensor, need: bool) {
    predicate Tracked() {
      need && !tensor.stray
    }
  }

  datatype Event = Save(item: Saved) | CommitFwd | CommitBwd | Fetch(act: Act) | NextStep

  datatype Client = Client(phase: Phase, next: nat, saved: map<Act, Saved>)

  const START := Client(Forward(0), 0, map[])

  // A tensor to be offloaded, for examples.
  const ONE_VALUE := Saved(Tensor(Storage(0, 0), [], [0], false), true)

  // A well-formed step: l forward commits, then l backward commits, each followed by one fetch of
  // everything saved in that group, in any order.
  ghost predicate Enabled(l: nat, c: Client, e: Event) {
    match e
    case Save(item) =>
      && c.phase.Forward? && c.phase.g < l
      && (item.Tracked() ==>
            && WellFormed(item.tensor)
            && forall a :: a in c.saved && a.group == c.phase.g && c.saved[a].Tracked()
                           && c.saved[a].tensor.key == item.tensor.key
                           ==> c.saved[a].tensor.data == item.tensor.data)
    case CommitFwd => c.phase.Forward? && c.phase.g < l
    case CommitBwd =>
      c.phase == Forward(l) || (c.phase.Backward? && c.phase.g > 0 && forall a :: a in c.saved ==> a.group < c.phase.g)
    case Fetch(a) => c.phase == Backward(a.group) && a in c.saved
    case NextStep => c.phase == Backward(0) && c.saved == map[]
  }

  function After(c: Client, e: Event): Client {
    match e
    case Save(item) => c.(next := c.next + 1, saved := c.saved[Act(c.phase.g, c.next) := item])
    case CommitFwd => c.(phase := Forward(c.phase.g + 1), next := 0)
    case CommitBwd => c.(phase := Backward(if c.phase.g > 0 then c.phase.g - 1 else 0))
    case Fetch(a) => c.(saved := c.saved - {a})
    case NextStep => START
  }

  ghost predicate WellFormedRun(l: nat, c: Client, es: seq<Event>)
    decreases |es|
  {
    es == [] || (Enabled(l, c, es[0]) && WellFormedRun(l, After(c, es[0]), es[1..]))
  }

  // What the client must be handed, event by event.
  function Expected(c: Client, es: seq<Event>): seq<Option<Tensor>>
    decreases |es|
  {
    if es == [] then []
    else
      [if es[0].Fetch? && es[0].act in c.saved then Some(c.saved[es[0].act].tensor) else None]
      + Expected(After(c, es[0]), es[1..])
  }

  predicate SameOutputs(xs: seq<Option<Tensor>>, ys: seq<Option<Tensor>>) {
    |xs| == |ys| && forall i :: 0 <= i < |xs| ==>
      xs[i].Some? == ys[i].Some? && (xs[i].Some? ==> SameValue(xs[i].value, ys[i].value))
  }

  function Final(c: Client, es: seq<Event>): Client
    decreases |es|
  {
    if es == [] then c else Final(After(c, es[0]), es[1..])
  }

  // ------------------------------------------------------------------ the two systems under the client

  // `live` only records what was pushed under each tag.
  datatype AsyncSystem = AsyncSystem(handler: State, handles: map<Act, Handle>, live: map<Tag, Tensor>)

  ghost function AsyncStep(n: nat, l: nat, c: Client, y: AsyncSystem, e: Event): Outcome<(AsyncSystem,
                           Option<Tensor>)> {
    match e
    case Save(item) =>
      var p :- Push(n, y.handler, item.tensor, item.need);
      Ok((AsyncSystem(p.0, y.handles[Act(c.phase.g, c.next) := p.1],
                      if p.1.Tagged? then y.live[p.1.tag := item.tensor] else y.live), None))
    case CommitFwd =>
      var s :- CommitForward(n, l, y.handler);
      Ok((y.(handler := s), None))
    case CommitBwd =>
      var s :- CommitBackward(n, l, y.handler);
      Ok((y.(handler := s), None))
    case Fetch(a) =>
      if a !in y.handles then Err(UnknownTag)
      else
        var h := y.handles[a];
        var p :- Pop(y.handler, h);
        Ok((AsyncSystem(p.0, y.handles - {a}, if h.Tagged? then y.live - {h.tag} else y.live), Some(p.1)))
    case NextStep => Ok((y, None))
  }

  ghost function AsyncRun(n: nat, l: nat, c: Client, y: AsyncSystem, es: seq<Event>)
    : Outcome<(AsyncSystem, seq<Option<Tensor>>)>
    decreases |es|
  {
    if es == [] then Ok((y, []))
    else
      var p :- AsyncStep(n, l, c, y, es[0]);
      var q :- AsyncRun(n, l, After(c, es[0]), p.0, es[1..]);
      Ok((q.0, [p.1] + q.1))
  }

  datatype SyncSystem = SyncSystem(handler: SyncState, tags: map<Act, Tag>)

  function SyncStep(n: nat, c: Client, y: SyncSystem, e: Event): Outcome<(SyncSystem, Option<Tensor>)> {
    match e
    case Save(item) =>
      var p :- SyncPush(n, y.handler, item.tensor, item.need);
      Ok((SyncSystem(p.0, y.tags[Act(c.phase.g, c.next) := p.1]), None))
    case CommitFwd => Ok((y.(handler := SyncCommitForward(y.handler)), None))
    case CommitBwd =>
      var s :- SyncCommitBackward(y.handler);
      Ok((y.(handler := s), None))
    case Fetch(a) =>
      if a !in y.tags then Err(UnknownTag)
      else
        var p :- SyncPop(y.handler, y.tags[a]);
        Ok((SyncSystem(p.0, y.tags - {a}), Some(p.1)))
    case NextStep => Ok((y, None))
  }

  function SyncRun(n: nat, c: Client, y: SyncSystem, es: seq<Event>): Outcome<(SyncSystem, seq<Option<Tensor>>)>
    decreases |es|
  {
    if es == [] then Ok((y, []))
    else
      var p :- SyncStep(n, c, y, es[0]);
      var q :- SyncRun(n, After(c, es[0]), p.0, es[1..]);
      Ok((q.0, [p.1] + q.1))
  }

  const ASYNC_START := AsyncSystem(INITIAL, map[], map[])
  const SYNC_START := SyncSystem(SYNC_INITIAL, map[])

  // ------------------------------------------------------------------ what holds between events

  ghost predicate Linked(c: Client, handles: map<Act, Handle>, live: map<Tag, Tensor>) {
    handles.Keys == c.saved.Keys && Hold(c, handles, live) && Distinct(handles) && Cover(handles, live)
  }

  ghost predicate Hold(c: Client, handles: map<Act, Handle>, live: map<Tag, Tensor>)
    requires handles.Keys == c.saved.Keys
  {
    forall a :: a in c.saved ==>
      if c.saved[a].Tracked()
      then handles[a].Tagged? && handles[a].tag.group == a.group && handles[a].tag in live
           && live[handles[a].tag] == c.saved[a].tensor
      else handles[a] == Untracked(c.saved[a].tensor)
  }

  ghost predicate Distinct(handles: map<Act, Handle>) {
    forall a, b :: a in handles && b in handles && handles[a].Tagged? && handles[a] == handles[b] ==> a == b
  }

  ghost predicate Cover(handles: map<Act, Handle>, live: map<Tag, Tensor>) {
    forall tag :: tag in live ==> exists a :: a in handles && handles[a] == Tagged(tag)
  }

  ghost predicate ClientOk(l: nat, c: Client) {
    && (forall a :: a in c.saved ==> a.group < l && a.group <= c.phase.g)
    && (c.phase.Forward? ==> forall a :: a in c.saved && a.group == c.phase.g ==> a.ordinal < c.next)
    && (c.phase.Backward? || c.phase.g == l ==> c.next == 0)
  }

  ghost predicate AsyncOk(n: nat, l: nat, c: Client, y: AsyncSystem)
    requires n > 0
  {
    ClientOk(l, c) && Linked(c, y.handles, y.live) && Inv(n, l, c.phase, y.live, y.handler)
  }

  function SyncTensor(slot: SyncSlot): Tensor {
    match slot
    case OnHost(t) => t
    case Kept(t) => t
  }

  ghost predicate SyncSlotsOk(saved: map<Act, Saved>, tags: map<Act, Tag>, slots: map<Tag, SyncSlot>) {
    && tags.Keys == saved.Keys
    && (forall a :: a in saved ==>
          tags[a] == Tag(a.group, a.ordinal) && tags[a] in slots
          && SameValue(SyncTensor(slots[tags[a]]), saved[a].tensor))
    && (forall tag :: tag in slots ==> Act(tag.group, tag.index) in saved)
  }

  ghost predicate SyncOk(l: nat, c: Client, y: SyncSystem) {
    && ClientOk(l, c)
    && y.handler.current == c.phase.g && y.handler.count == c.next
    && SyncSlotsOk(c.saved, y.tags, y.handler.slots)
  }

  // ------------------------------------------------------------------ one event

  lemma CoverSave(handles: map<Act, Handle>, live: map<Tag, Tensor>, a: Act, h: Handle, t: Tensor)
    requires Cover(handles, live) && a !in handles
    ensures Cover(handles[a := h], if h.Tagged? then live[h.tag := t] else live)
  {
    var handles' := handles[a := h];
    assert handles'[a] == h;
    forall tag | tag in live
      ensures exists b :: b in handles' && handles'[b] == Tagged(tag)
    {
      var b :| b in handles && handles[b] == Tagged(tag);
      assert handles'[b] == Tagged(tag);
    }
  }

  lemma CoverFetch(handles: map<Act, Handle>, live: map<Tag, Tensor>, a: Act)
    requires Cover(handles, live) && a in handles
    ensures Cover(handles - {a}, if handles[a].Tagged? then live - {handles[a].tag} else live)
  {
    var handles' := handles - {a};
    forall tag | tag in live && handles[a] != Tagged(tag)
      ensures exists b :: b in handles' && handles'[b] == Tagged(tag)
    {
      var b :| b in handles && handles[b] == Tagged(tag);
      assert handles'[b] == Tagged(tag);
    }
  }

  lemma LinkSave(l: nat, c: Client, handles: map<Act, Handle>, live: map<Tag, Tensor>, item: Saved, h: Handle)
    requires Linked(c, handles, live) && ClientOk(l, c) && c.phase.Forward? && c.phase.g < l
    requires if item.Tracked() then h.Tagged? && h.tag !in live && h.tag.group == c.phase.g
             else h == Untracked(item.tensor)
    ensures Linked(After(c, Save(item)), handles[Act(c.phase.g, c.next) := h],
                   if h.Tagged? then live[h.tag := item.tensor] else live)
    ensures ClientOk(l, After(c, Save(item)))
  {
    hide Cover;
    CoverSave(handles, live, Act(c.phase.g, c.next), h, item.tensor);
  }

  lemma LinkFetch(l: nat, c: Client, handles: map<Act, Handle>, live: map<Tag, Tensor>, a: Act)
    requires Linked(c, handles, live) && ClientOk(l, c) && a in c.saved
    ensures Linked(After(c, Fetch(a)), handles - {a}, if handles[a].Tagged? then live - {handles[a].tag} else live)
    ensures ClientOk(l, After(c, Fetch(a)))
  {
    hide Cover;
    CoverFetch(handles, live, a);
  }

  lemma SaveKeeps(n: nat, l: nat, c: Client, y: AsyncSystem, item: Saved)
    requires 0 < n <= l && AsyncOk(n, l, c, y) && Enabled(l, c, Save(item))
    ensures var r := AsyncStep(n, l, c, y, Save(item));
            r.Ok? && r.value.1 == None && AsyncOk(n, l, After(c, Save(item)), r.value.0)
  {
    hide Inv, Numel;
    if item.Tracked() {
      forall t | t in y.live && t.group == c.phase.g && y.live[t].key == item.tensor.key
        ensures y.live[t].data == item.tensor.data
      {
        var a :| a in y.handles && y.handles[a] == Tagged(t);
      }
      PushKeeps(n, l, c.phase.g, y.live, y.handler, item.tensor);
    }
    var h := Push(n, y.handler, item.tensor, item.need).value.1;
    LinkSave(l, c, y.handles, y.live, item, h);
    hide Linked, ClientOk;
  }

  lemma FetchKeeps(n: nat, l: nat, c: Client, y: AsyncSystem, a: Act)
    requires 0 < n <= l && AsyncOk(n, l, c, y) && Enabled(l, c, Fetch(a))
    ensures var r := AsyncStep(n, l, c, y, Fetch(a));
            r.Ok? && r.value.1.Some? && SameValue(r.value.1.value, c.saved[a].tensor)
            && AsyncOk(n, l, After(c, Fetch(a)), r.value.0)
  {
    hide Inv, Pop;
    if c.saved[a].Tracked() {
      PopKeeps(n, l, a.group, y.live, y.handler, y.handles[a].tag);
    } else {
      PopUntracked(y.handler, y.handles[a]);
    }
    LinkFetch(l, c, y.handles, y.live, a);
    hide Linked, ClientOk;
  }

  lemma PopUntracked(s: State, h: Handle)
    requires h.Untracked?
    ensures Pop(s, h) == Ok((s, h.tensor))
  {
  }

  lemma CommitKeeps(n: nat, l: nat, c: Client, y: AsyncSystem, e: Event)
    requires 0 < n <= l && AsyncOk(n, l, c, y) && Enabled(l, c, e)
    requires e.CommitFwd? || e.CommitBwd?
    ensures var r := AsyncStep(n, l, c, y, e);
            r.Ok? && r.value.1 == None && AsyncOk(n, l, After(c, e), r.value.0)
  {
    hide Inv, CommitForward, CommitBackward;
    if e.CommitFwd? {
      CommitForwardKeeps(n, l, c.phase.g, y.live, y.handler);
    } else {
      forall tag | tag in y.live && c.phase.Backward?
        ensures tag.group < c.phase.g
      {
        var a :| a in y.handles && y.handles[a] == Tagged(tag);
      }
      EnterBackward(n, l, c.phase, y.live, y.handler);
      CommitBackwardKeeps(n, l, c.phase, y.live, y.handler);
    }
  }

  lemma SyncSlotsSave(saved: map<Act, Saved>, tags: map<Act, Tag>, slots: map<Tag, SyncSlot>, a: Act, item: Saved,
                      slot: SyncSlot)
    requires SyncSlotsOk(saved, tags, slots) && a !in saved && SyncTensor(slot) == item.tensor
    ensures var tag := Tag(a.group, a.ordinal);
            tag !in slots && SyncSlotsOk(saved[a := item], tags[a := tag], slots[tag := slot])
  {
    var tag := Tag(a.group, a.ordinal);
    assert Act(tag.group, tag.index) == a;
  }

  lemma SyncSaveKeeps(n: nat, l: nat, c: Client, y: SyncSystem, item: Saved)
    requires SyncOk(l, c, y) && c.phase.Forward? && c.phase.g < l
    ensures var r := SyncStep(n, c, y, Save(item));
            r.Ok? && r.value.1 == None && SyncOk(l, After(c, Save(item)), r.value.0)
  {
    hide SyncSlotsOk;
    var a := Act(c.phase.g, c.next);
    assert a !in c.saved;
    var slot := if y.handler.current < n && item.need then OnHost(item.tensor) else Kept(item.tensor);
    SyncSlotsSave(c.saved, y.tags, y.handler.slots, a, item, slot);
  }

  lemma SyncFetchKeeps(n: nat, l: nat, c: Client, y: SyncSystem, a: Act)
    requires SyncOk(l, c, y) && a in c.saved
    ensures var r := SyncStep(n, c, y, Fetch(a));
            r.Ok? && SyncOk(l, After(c, Fetch(a)), r.value.0)
            && r.value.1.Some? && SameValue(r.value.1.value, c.saved[a].tensor)
  {
  }

  lemma SyncKeeps(n: nat, l: nat, c: Client, y: SyncSystem, e: Event)
    requires 0 < n <= l && SyncOk(l, c, y) && Enabled(l, c, e)
    ensures var r := SyncStep(n, c, y, e);
            r.Ok? && SyncOk(l, After(c, e), r.value.0)
            && (if e.Fetch? then r.value.1.Some? && SameValue(r.value.1.value, c.saved[e.act].tensor)
                else r.value.1 == None)
  {
    if e.Save? {
      SyncSaveKeeps(n, l, c, y, e.item);
    } else if e.Fetch? {
      SyncFetchKeeps(n, l, c, y, e.act);
    } else {
      hide SyncPush, SyncPop, WellFormed;
    }
  }

  // ------------------------------------------------------------------ between steps

  // Once everything has been fetched the asynchronous handler is as good as new.
  lemma StepBoundary(n: nat, l: nat, c: Client, y: AsyncSystem)
    requires 0 < n <= l && AsyncOk(n, l, c, y)
    requires c.phase == Backward(0) && c.saved == map[]
    ensures IsReset(y.handler) && y.live == map[]
    ensures AsyncOk(n, l, START, y)
  {
    assert y.handles.Keys == {} && Cover(y.handles, y.live);
    assert forall tag :: tag !in y.live;
    assert y.live == map[];
    assert forall k :: k !in y.handler.backups;
    assert y.handler.slots.Keys == {} && y.handler.bufs.Keys == {} && y.handler.backups.Keys == {};
    assert y.handler.slots == map[] && y.handler.bufs == map[] && y.handler.backups == map[];
    assert y.handler.count == 0 && y.handler.current == 0;
  }

  lemma AsyncKeeps(n: nat, l: nat, c: Client, y: AsyncSystem, e: Event)
    requires 0 < n <= l && AsyncOk(n, l, c, y) && Enabled(l, c, e)
    ensures var r := AsyncStep(n, l, c, y, e);
            r.Ok? && AsyncOk(n, l, After(c, e), r.value.0)
            && (if e.Fetch? then r.value.1.Some? && SameValue(r.value.1.value, c.saved[e.act].tensor)
                else r.value.1 == None)
  {
    hide AsyncOk;
    match e
    case Save(item) => SaveKeeps(n, l, c, y, item);
    case Fetch(a) => FetchKeeps(n, l, c, y, a);
    case NextStep => StepBoundary(n, l, c, y);
    case _ => CommitKeeps(n, l, c, y, e);
  }

  // ------------------------------------------------------------------ the theorems

  // Over every well-formed run, from any state a run can reach, no assertion or lookup of the asynchronous
  // handler fails, and every fetch returns the saved data and shape.
  lemma {:induction false} AsyncRunCorrect(n: nat, l: nat, c: Client, y: AsyncSystem, es: seq<Event>)
    requires 0 < n <= l && AsyncOk(n, l, c, y) && WellFormedRun(l, c, es)
    ensures var r := AsyncRun(n, l, c, y, es);
            r.Ok? && SameOutputs(r.value.1, Expected(c, es)) && AsyncOk(n, l, Final(c, es), r.value.0)
    decreases |es|
  {
    hide AsyncOk, AsyncStep, WellFormed;
    if es != [] {
      AsyncKeeps(n, l, c, y, es[0]);
      AsyncRunCorrect(n, l, After(c, es[0]), AsyncStep(n, l, c, y, es[0]).value.0, es[1..]);
    }
  }

  lemma {:induction false} SyncRunCorrect(n: nat, l: nat, c: Client, y: SyncSystem, es: seq<Event>)
    requires 0 < n <= l && SyncOk(l, c, y) && WellFormedRun(l, c, es)
    ensures var r := SyncRun(n, c, y, es);
            r.Ok? && SameOutputs(r.value.1, Expected(c, es)) && SyncOk(l, Final(c, es), r.value.0)
    decreases |es|
  {
    hide SyncOk, SyncStep, WellFormed;
    if es != [] {
      SyncKeeps(n, l, c, y, es[0]);
      SyncRunCorrect(n, l, After(c, es[0]), SyncStep(n, c, y, es[0]).value.0, es[1..]);
    }
  }

  lemma StartOk(n: nat, l: nat)
    requires 0 < n <= l
    ensures AsyncOk(n, l, START, ASYNC_START) && SyncOk(l, START, SYNC_START)
  {
  }

  // The double-buffered handler refines the synchronous one: any number of steps, any order of fetches
  // within a group, both hand the client the same tensors and neither fails.
  lemma AsyncRefinesSync(n: nat, l: nat, es: seq<Event>)
    requires 0 < n <= l && WellFormedRun(l, START, es)
    ensures var a, b := AsyncRun(n, l, START, ASYNC_START, es), SyncRun(n, START, SYNC_START, es);
            a.Ok? && b.Ok? && SameOutputs(a.value.1, b.value.1) && SameOutputs(a.value.1, Expected(START, es))
  {
    hide AsyncRun, SyncRun, WellFormedRun, AsyncOk, SyncOk;
    StartOk(n, l);
    AsyncRunCorrect(n, l, START, ASYNC_START, es);
    SyncRunCorrect(n, l, START, SYNC_START, es);
  }

  // Whenever a step has ended, all dictionaries are empty and both counters are 0, so steps compose.
  lemma StepsLeaveNothing(n: nat, l: nat, es: seq<Event>)
    requires 0 < n <= l && WellFormedRun(l, START, es)
    requires var c := Final(START, es); c.phase == Backward(0) && c.saved == map[]
    ensures var r := AsyncRun(n, l, START, ASYNC_START, es);
            r.Ok? && IsReset(r.value.0.handler)
  {
    hide AsyncRun, WellFormedRun, AsyncOk;
    StartOk(n, l);
    AsyncRunCorrect(n, l, START, ASYNC_START, es);
    StepBoundary(n, l, Final(START, es), AsyncRun(n, l, START, ASYNC_START, es).value.0);
  }

  // In the trace of every run, each copy and release is ordered after whatever it depends on has been issued: a
  // group's copies out follow its producers, its release and its copies in follow its copies out, its uses follow
  // its copies in.
  lemma RunsAreOrdered(n: nat, l: nat, es: seq<Event>)
    requires 0 < n <= l && WellFormedRun(l, START, es)
    ensures var r := AsyncRun(n, l, START, ASYNC_START, es);
            r.Ok? && SafeTrace(r.value.0.handler.streams.trace)
  {
    hide AsyncRun, WellFormedRun;
    StartOk(n, l);
    AsyncRunCorrect(n, l, START, ASYNC_START, es);
  }

  // While the client saves, the handler's dictionary satisfies what its commit methods take for granted.
  lemma CommitAssumptionHolds(n: nat, l: nat, c: Client, y: AsyncSystem)
    requires 0 < n <= l && AsyncOk(n, l, c, y) && c.phase.Forward?
    ensures forall g :: SharedStorage(y.handler.slots, g)
  {
    forall g
      ensures SharedStorage(y.handler.slots, g)
    {
      LiveIsShared(n, l, Top(n, l, c.phase), c.phase, y.live, y.handler.slots, y.handler.backups, g);
    }
  }

  // ------------------------------------------------------------------ the shared-storage assumption

  ghost predicate GroupRestored(r: Outcome<State>, slots: map<Tag, Slot>, g: int) {
    r.Ok? && r.value.slots.Keys == slots.Keys
    && forall tag :: tag in slots && tag.group == g && slots[tag].OnDevice? ==>
         r.value.slots[tag].OnDevice? && SameValue(r.value.slots[tag].tensor, slots[tag].tensor)
  }

  lemma ReloadAfterOffload(n: nat, s: State, g: nat)
    requires g < n && !AnyOff(s.slots, g)
    ensures var backup, moved := BackupOf(s.slots, g), MovedOff(s.slots, g);
            var r := BulkReload(n, BulkOffload(s, g).value, g);
            r.Ok? == AllRecoverable(backup, moved, g)
            && (r.Ok? ==> r.value.slots == Restored(backup, moved, g))
  {
    hide BackupOf, MovedOff, Restored, AllRecoverable, TagsOf;
  }

  // Offloading and reloading a group restores every tensor in it exactly when equal keys mean equal data.
  lemma OffloadReloadRoundTrip(n: nat, s: State, g: nat)
    requires g < n && !AnyOff(s.slots, g)
    requires forall tag :: tag in s.slots && tag.group == g && s.slots[tag].OnDevice? ==>
               WellFormed(s.slots[tag].tensor)
    ensures SharedStorage(s.slots, g) <==> GroupRestored(BulkReload(n, BulkOffload(s, g).value, g), s.slots, g)
  {
    ReloadAfterOffload(n, s, g);
    hide BulkReload, BulkOffload, BackupOf, Numel;
    var backup, moved := BackupOf(s.slots, g), MovedOff(s.slots, g);
    var r := BulkReload(n, BulkOffload(s, g).value, g);
    if SharedStorage(s.slots, g) {
      forall tag | tag in s.slots && tag.group == g
        ensures Recoverable(backup, moved[tag]) && backup[s.slots[tag].tensor.key] == s.slots[tag].tensor.data
      {
        BackupHolds(s.slots, g, tag);
      }
    }
  }

  // ------------------------------------------------------------------ element counts

  // A group comes back exactly when it is one of the first n, has been copied, and each of its tensors on the host
  // finds a copy with as many elements as its shape has; each tensor is then the copy under that shape.
  lemma ReloadExactlyWhen(n: nat, s: State, g: nat)
    ensures BulkReload(n, s, g).Ok? <==>
            g < n && g in s.backups
            && forall tag :: tag in s.slots && tag.group == g && s.slots[tag].OffDevice? ==>
                 s.slots[tag].key in s.backups[g] && |s.backups[g][s.slots[tag].key]| == Numel(s.slots[tag].shape)
    ensures BulkReload(n, s, g).Ok? ==>
              forall tag :: tag in s.slots && tag.group == g && s.slots[tag].OffDevice? ==>
                var back := BulkReload(n, s, g).value.slots;
                && tag in back && back[tag].OnDevice? && !back[tag].tensor.stray
                && back[tag].tensor.shape == s.slots[tag].shape
                && back[tag].tensor.data == s.backups[g][s.slots[tag].key]
  {
    hide Numel;
  }

  // A matrix of a rows and b columns is reloaded from its a * b values.
  lemma MatrixReloaded(n: nat, s: State, tag: Tag, key: Key, a: nat, b: nat, data: seq<int>)
    requires tag.group < n && s.slots == map[tag := OffDevice(key, [a, b])]
    requires s.backups == map[tag.group as int := map[key := data]]
    ensures BulkReload(n, s, tag.group).Ok? <==> |data| == a * b
    ensures |data| == a * b ==>
              var back := BulkReload(n, s, tag.group).value.slots;
              && back.Keys == {tag} && back[tag].OnDevice?
              && back[tag].tensor.shape == [a, b] && back[tag].tensor.data == data
  {
    NumelOne(a);
    NumelOne(b);
    NumelConcat([a], [b]);
    assert [a] + [b] == [a, b];
    assert tag in s.slots && tag.group in s.backups;
    hide Numel;
    ReloadExactlyWhen(n, s, tag.group);
  }

  // ------------------------------------------------------------------ what is taken off the device

  // A saved tensor has a tag exactly when the checker asks for it and it is not an artefact of tracing; any other is
  // handed back as it is.
  lemma TaggedExactlyWhen(n: nat, l: nat, c: Client, y: AsyncSystem, a: Act)
    requires 0 < n <= l && AsyncOk(n, l, c, y) && a in c.saved
    ensures a in y.handles
    ensures y.handles[a].Tagged? <==> c.saved[a].need && !c.saved[a].tensor.stray
    ensures y.handles[a].Untracked? ==> y.handles[a].tensor == c.saved[a].tensor
  {
    hide Inv;
  }

  // The tags of a group are numbered one after the other.
  lemma TagsAreConsecutive(n: nat, s: State, t: Tensor, u: Tensor)
    requires !t.stray && !u.stray && Push(n, s, t, true).Ok? && Push(n, Push(n, s, t, true).value.0, u, true).Ok?
    ensures var (s1, h1) := Push(n, s, t, true).value;
            var (s2, h2) := Push(n, s1, u, true).value;
            h1 == Tagged(Tag(s.current, s.count)) && h2 == Tagged(Tag(s.current, s.count + 1))
  {
  }

  // The synchronous handler's tensors on the host: those of the first n groups that the checker asks for.
  ghost predicate SyncPlaced(n: nat, c: Client, y: SyncSystem) {
    forall a :: a in c.saved && a in y.tags && y.tags[a] in y.handler.slots ==>
      (y.handler.slots[y.tags[a]].OnHost? <==> a.group < n && c.saved[a].need)
  }

  lemma SyncPlaces(n: nat, l: nat, c: Client, y: SyncSystem, e: Event)
    requires 0 < n <= l && SyncOk(l, c, y) && Enabled(l, c, e) && SyncPlaced(n, c, y)
    ensures SyncStep(n, c, y, e).Ok? && SyncPlaced(n, After(c, e), SyncStep(n, c, y, e).value.0)
  {
    SyncKeeps(n, l, c, y, e);
    hide WellFormed;
    if e.Save? {
      SyncPlacesSave(n, l, c, y, e.item);
    } else if e.NextStep? {
      assert c.saved == map[];
    }
  }

  lemma SyncPlacesSave(n: nat, l: nat, c: Client, y: SyncSystem, item: Saved)
    requires SyncOk(l, c, y) && c.phase.Forward? && c.phase.g < l && SyncPlaced(n, c, y)
    requires SyncStep(n, c, y, Save(item)).Ok?
    ensures SyncPlaced(n, After(c, Save(item)), SyncStep(n, c, y, Save(item)).value.0)
  {
    var z, here := SyncStep(n, c, y, Save(item)).value.0, Act(c.phase.g, c.next);
    var saved := After(c, Save(item)).saved;
    forall a | a in saved && a in z.tags && z.tags[a] in z.handler.slots
      ensures z.handler.slots[z.tags[a]].OnHost? <==> a.group < n && saved[a].need
    {
      assert a != here ==> a in c.saved && y.tags[a] == Tag(a.group, a.ordinal);
    }
  }

  // At every moment of every run.
  lemma {:induction false} SyncRunPlaces(n: nat, l: nat, c: Client, y: SyncSystem, es: seq<Event>)
    requires 0 < n <= l && SyncOk(l, c, y) && WellFormedRun(l, c, es) && SyncPlaced(n, c, y)
    ensures SyncRun(n, c, y, es).Ok?
    ensures var f, z := Final(c, es), SyncRun(n, c, y, es).value.0;
            forall a :: a in f.saved ==>
              a in z.tags && z.tags[a] in z.handler.slots
              && (z.handler.slots[z.tags[a]].OnHost? <==> a.group < n && f.saved[a].need)
    decreases |es|
  {
    if es != [] {
      SyncKeeps(n, l, c, y, es[0]);
      SyncPlaces(n, l, c, y, es[0]);
      hide SyncOk, SyncPlaced, SyncStep, WellFormed;
      SyncRunPlaces(n, l, After(c, es[0]), SyncStep(n, c, y, es[0]).value.0, es[1..]);
    }
  }
}
