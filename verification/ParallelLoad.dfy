/** Loading a sharded checkpoint on every rank of a job: who reads which file, and the broadcasts by which
    the ranks fill their parameters.  The ranks never negotiate; they must come to the same plan on their own. */
module ParallelLoad {
  import opened Wrappers
  import opened Arithmetic
  import opened ModuleNames

  type Tensor = seq<int>

  // An entry of shard_states: the tensor this rank has read, or the rank that has it.
  datatype Entry = Loaded(value: Tensor) | OwnedBy(rank: nat)

  type Shard = map<string, Entry>

  // ------------------------------------------------------------------ file ownership

  function ChunkSize(files: nat, world: nat): nat
    requires world > 0
  {
    (files + world - 1) / world
  }

  // chunk r is the slice [r * size : r * size + size] of the sorted file list, clamped to the list.
  function ChunkStart(files: nat, world: nat, r: nat): nat
    requires world > 0
  {
    var at := r * ChunkSize(files, world);
    if at < files then at else files
  }

  function ChunkEnd(files: nat, world: nat, r: nat): nat
    requires world > 0
  {
    var at := r * ChunkSize(files, world) + ChunkSize(files, world);
    if at < files then at else files
  }

  function Owner(files: nat, world: nat, i: nat): nat
    requires world > 0 && i < files
  {
    SizePositive(files, world);
    i / ChunkSize(files, world)
  }

  lemma SizePositive(files: nat, world: nat)
    requires world > 0
    ensures files > 0 ==> ChunkSize(files, world) > 0
    ensures ChunkSize(files, world) * world >= files
  {
    DivisionCell(files + world - 1, world, 0);
    assert files + world - 1 == ChunkSize(files, world) * world + (files + world - 1) % world;
  }

  lemma OwnerInRange(files: nat, world: nat, i: nat)
    requires world > 0 && i < files
    ensures Owner(files, world, i) < world
  {
    SizePositive(files, world);
    var size, o := ChunkSize(files, world), Owner(files, world, i);
    DivisionCell(i, size, o);
    if o >= world {
      ScaleMonotone(world, o, size);
    }
  }

  // Every file lies in exactly one rank's chunk, for any number of files and ranks.
  lemma ExactlyOneOwner(files: nat, world: nat, i: nat)
    requires world > 0 && i < files
    ensures Owner(files, world, i) < world
    ensures forall r: nat :: ChunkStart(files, world, r) <= i < ChunkEnd(files, world, r) <==> r == Owner(files,
        world, i)
  {
    OwnerInRange(files, world, i);
    SizePositive(files, world);
    forall r: nat
      ensures ChunkStart(files, world, r) <= i < ChunkEnd(files, world, r) <==> r == Owner(files, world, i)
    {
      var size := ChunkSize(files, world);
      DivisionCell(i, size, r);
      assert ChunkStart(files, world, r) <= i <==> r * size <= i;
      assert i < ChunkEnd(files, world, r) <==> i < r * size + size;
    }
  }

  // The slices follow one another from the first file to the last, and each is full until the files run out.
  lemma SlicesMeet(files: nat, world: nat, r: nat)
    requires world > 0
    ensures ChunkStart(files, world, 0) == 0 && ChunkStart(files, world, world) == files
    ensures ChunkStart(files, world, r) <= ChunkEnd(files, world, r) <= files
    ensures ChunkEnd(files, world, r) == ChunkStart(files, world, r + 1)
    ensures ChunkEnd(files, world, r) == Min(ChunkStart(files, world, r) + ChunkSize(files, world), files)
  {
    SizePositive(files, world);
    assert (r + 1) * ChunkSize(files, world) == r * ChunkSize(files, world) + ChunkSize(files, world);
  }

  // No rank has more files than it must: no more than any size of which as many as there are ranks suffice.
  lemma NoRankHasMore(files: nat, world: nat, r: nat, size: nat)
    requires world > 0 && size * world >= files
    ensures ChunkSize(files, world) <= size
    ensures ChunkEnd(files, world, r) - ChunkStart(files, world, r) <= size
  {
    var most := ChunkSize(files, world);
    assert files + world - 1 == most * world + (files + world - 1) % world;
    assert (size + 1) * world == size * world + world;
    if most > size {
      ScaleMonotone(size + 1, most, world);
    }
  }

  // ------------------------------------------------------------------ what each rank's table holds

  // contents[i] is what the i-th file of the sorted list holds; a weight map names each parameter once.
  ghost predicate Checkpoint(contents: seq<map<string, Tensor>>) {
    forall i, j, p :: 0 <= i < |contents| && 0 <= j < |contents| && p in contents[i] && p in contents[j] ==> i == j
  }

  function EntryFor(files: nat, world: nat, me: nat, i: nat, value: Tensor): Entry
    requires world > 0 && i < files
  {
    if Owner(files, world, i) == me then Loaded(value) else OwnedBy(Owner(files, world, i))
  }

  // The table after the first `upto` files have been entered.
  ghost predicate Entered(contents: seq<map<string, Tensor>>, world: nat, me: nat, upto: nat, shard: Shard)
    requires world > 0 && upto <= |contents|
  {
    && (forall i, p :: 0 <= i < upto && p in contents[i] ==>
          p in shard && shard[p] == EntryFor(|contents|, world, me, i, contents[i][p]))
    && (forall p :: p in shard ==> exists i :: 0 <= i < upto && p in contents[i])
  }

  // What rank `me` enters for file i: all that its own files hold, and what the index lists under the others.
  function FileEntries(contents: seq<map<string, Tensor>>, index: seq<set<string>>, world: nat, me: nat, i: nat): Shard
    requires world > 0 && i < |contents| == |index|
  {
    if Owner(|contents|, world, i) == me then map p | p in contents[i] :: Loaded(contents[i][p])
    else map p | p in index[i] :: OwnedBy(Owner(|contents|, world, i))
  }

  function Table(contents: seq<map<string, Tensor>>, index: seq<set<string>>, world: nat, me: nat, upto: nat): Shard
    requires world > 0 && upto <= |contents| == |index|
  {
    if upto == 0 then map[]
    else Table(contents, index, world, me, upto - 1) + FileEntries(contents, index, world, me, upto - 1)
  }

  // index[i] is what the weight map lists under the i-th file.
  method LoadSafetensors(contents: seq<map<string, Tensor>>, index: seq<set<string>>, world: nat, me: nat)
    returns (shard: Shard)
    requires world > 0 && |contents| == |index|
    ensures shard == Table(contents, index, world, me, |contents|)
  {
    hide Owner, ChunkStart, ChunkEnd;
    shard := map[];
    var n := |contents|;
    SlicesMeet(n, world, 0);
    for rank := 0 to world
      invariant ChunkStart(n, world, rank) <= n
      invariant shard == Table(contents, index, world, me, ChunkStart(n, world, rank))
    {
      var first, last := ChunkStart(n, world, rank), ChunkEnd(n, world, rank);
      SlicesMeet(n, world, rank);
      for f := first to last
        invariant shard == Table(contents, index, world, me, f)
      {
        ExactlyOneOwner(n, world, f);
        assert rank == Owner(n, world, f);
        if rank == me {
          shard := shard + map p | p in contents[f] :: Loaded(contents[f][p]);
        } else {
          shard := NoteOwner(index[f], rank, shard);
        }
      }
    }
  }

  method NoteOwner(names: set<string>, rank: nat, shard: Shard) returns (r: Shard)
    ensures r == shard + map p | p in names :: OwnedBy(rank)
  {
    r := shard;
    var todo := names;
    while todo != {}
      invariant todo <= names
      invariant r == shard + map p | p in names - todo :: OwnedBy(rank)
    {
      var p :| p in todo;
      todo := todo - {p};
      r := r[p := OwnedBy(rank)];
    }
  }

  // An index that lists under each file what the file holds.
  predicate IndexExact(contents: seq<map<string, Tensor>>, index: seq<set<string>>) {
    |contents| == |index| && forall i :: 0 <= i < |contents| ==> contents[i].Keys == index[i]
  }

  lemma {:induction false} TableEntered(contents: seq<map<string, Tensor>>, index: seq<set<string>>, world: nat,
                                        me: nat, upto: nat)
    requires world > 0 && upto <= |contents| && Checkpoint(contents) && IndexExact(contents, index)
    ensures Entered(contents, world, me, upto, Table(contents, index, world, me, upto))
  {
    hide Entered, FileEntries, Checkpoint, Owner;
    NothingEntered(contents, world, me);
    if upto > 0 {
      TableEntered(contents, index, world, me, upto - 1);
      EnterFile(contents, index, world, me, upto - 1, Table(contents, index, world, me, upto - 1));
    }
  }

  lemma NothingEntered(contents: seq<map<string, Tensor>>, world: nat, me: nat)
    requires world > 0
    ensures Entered(contents, world, me, 0, map[])
  {
  }

  lemma EnterFile(contents: seq<map<string, Tensor>>, index: seq<set<string>>, world: nat, me: nat, f: nat,
                  before: Shard)
    requires world > 0 && Checkpoint(contents) && f < |contents| && IndexExact(contents, index)
    requires Entered(contents, world, me, f, before)
    ensures Entered(contents, world, me, f + 1, before + FileEntries(contents, index, world, me, f))
  {
    hide Owner;
    assert contents[f].Keys == index[f];
  }

  // ------------------------------------------------------------------ one rank

  datatype Error = NoNameLeft | NotLoaded | NonPersistentOnMeta

  // A broadcast: the parameter, the rank it comes from, and what this rank put into the buffer before it.
  datatype Broadcast = Broadcast(fqn: string, source: nat, sent: Option<Tensor>)

  // `objects` are the materialised tensors in order of creation, one per broadcast;
  // `given` tells which of them each name has been given.
  datatype Rank = Rank(
    shard: Shard,
    names: map<nat, seq<string>>,
    materialized: map<nat, nat>,
    objects: seq<Broadcast>,
    given: map<string, nat>)

  function CreateAndSync(me: nat, fqn: string, r: Rank): Result<Rank, Error> {
    if fqn !in r.shard then Err(NotLoaded)
    else
      var b := match r.shard[fqn]
        case Loaded(v) => Broadcast(fqn, me, Some(v))
        case OwnedBy(o) => Broadcast(fqn, o, None);
      Ok(r.(shard := r.shard - {fqn}, objects := r.objects + [b]))
  }

  function Visit(me: nat, shared: set<nat>, slot: Slot, r: Rank): Result<Rank, Error> {
    if !slot.Visited() then Ok(r)
    else if slot.state !in r.names || r.names[slot.state] == [] then Err(NoNameLeft)
    else
      var fqn := r.names[slot.state][0];
      var r1 := r.(names := r.names[slot.state := r.names[slot.state][1..]]);
      if !slot.isParam && fqn !in r1.shard then Err(NonPersistentOnMeta)
      else if slot.state in shared then
        if slot.state !in r1.materialized then
          var r2 :- CreateAndSync(me, fqn, r1);
          Ok(r2.(materialized := r2.materialized[slot.state := |r1.objects|],
                 given := r2.given[slot.fqn := |r1.objects|]))
        else
          Ok(r1.(shard := if fqn in r1.shard then r1.shard - {fqn} else r1.shard,
                  given := r1.given[slot.fqn := r1.materialized[slot.state]]))
      else
        var r2 :- CreateAndSync(me, fqn, r1);
        Ok(r2.(given := r2.given[slot.fqn := |r1.objects|]))
  }

  function VisitAll(me: nat, shared: set<nat>, slots: seq<Slot>, r: Rank): Result<Rank, Error> {
    if slots == [] then Ok(r)
    else
      var r1 :- Visit(me, shared, slots[0], r);
      VisitAll(me, shared, slots[1..], r1)
  }

  lemma {:induction false} VisitConcat(me: nat, shared: set<nat>, a: seq<Slot>, b: seq<Slot>, r: Rank)
    ensures VisitAll(me, shared, a + b, r) ==
            if VisitAll(me, shared, a, r).Ok? then VisitAll(me, shared, b, VisitAll(me, shared, a, r).value)
            else VisitAll(me, shared, a, r)
    decreases |a|
  {
    if a == [] {
      assert a + b == b;
    } else {
      assert (a + b)[0] == a[0] && (a + b)[1..] == a[1..] + b;
      if Visit(me, shared, a[0], r).Ok? {
        VisitConcat(me, shared, a[1..], b, Visit(me, shared, a[0], r).value);
      }
    }
  }

  // The closure that parallel_init_module_fn returns, with the tables it pops from.
  class Loader {
    const me: nat
    const shared: set<nat>
    var shardStates: Shard
    var state2fqn: map<nat, seq<string>>
    var materializedStates: map<nat, nat>
    var objects: seq<Broadcast>
    var given: map<string, nat>

    ghost function Abstract(): Rank
      reads this
    {
      Rank(shardStates, state2fqn, materializedStates, objects, given)
    }

    constructor (me: nat, shared: set<nat>, shard: Shard, names: map<nat, seq<string>>)
      ensures this.me == me && this.shared == shared
      ensures Abstract() == Rank(shard, names, map[], [], map[])
    {
      this.me, this.shared, shardStates, state2fqn := me, shared, shard, names;
      materializedStates, objects, given := map[], [], map[];
    }

    method CreateAndSyncState(fqn: string) returns (r: Result<nat, Error>)
      modifies this
      ensures CreateAndSync(me, fqn, old(Abstract())) ==
              if r.Ok? then Ok(Abstract()) else Err(r.error)
      ensures r.Ok? ==> r.value == |old(objects)|
    {
      if fqn !in shardStates {
        return Err(NotLoaded);
      }
      var created := |objects|;
      match shardStates[fqn] {
        case Loaded(v) => objects := objects + [Broadcast(fqn, me, Some(v))];
        case OwnedBy(rank) => objects := objects + [Broadcast(fqn, rank, None)];
      }
      shardStates := shardStates - {fqn};
      r := Ok(created);
    }

    method InitMember(slot: Slot) returns (r: Result<(), Error>)
      modifies this
      ensures Visit(me, shared, slot, old(Abstract())) == if r.Ok? then Ok(Abstract()) else Err(r.error)
    {
      if !slot.Visited() {
        return Ok(());
      }
      if slot.state !in state2fqn || state2fqn[slot.state] == [] {
        return Err(NoNameLeft);
      }
      var fqn := state2fqn[slot.state][0];
      state2fqn := state2fqn[slot.state := state2fqn[slot.state][1..]];
      if !slot.isParam && fqn !in shardStates {
        return Err(NonPersistentOnMeta);
      }
      var target;
      if slot.state in shared {
        if slot.state !in materializedStates {
          var created := CreateAndSyncState(fqn);
          if created.Err? {
            return Err(created.error);
          }
          materializedStates := materializedStates[slot.state := created.value];
        } else if fqn in shardStates {
          shardStates := shardStates - {fqn};
        }
        target := materializedStates[slot.state];
      } else {
        var created := CreateAndSyncState(fqn);
        if created.Err? {
          return Err(created.error);
        }
        target := created.value;
      }
      given := given[slot.fqn := target];
      r := Ok(());
    }

    method InitFn(m: Module, prefix: string) returns (r: Result<(), Error>)
      modifies this
      ensures VisitAll(me, shared, Flatten(m, prefix),
          old(Abstract())) == if r.Ok? then Ok(Abstract()) else Err(r.error)
      decreases m
    {
      ghost var r0 := Abstract();
      VisitConcat(me, shared, Qualify(prefix, m.members, {}), FlattenAll(m.children, prefix), r0);
      var memo: Seen := {};
      for i := 0 to |m.members|
        invariant VisitAll(me, shared, Qualify(prefix, m.members, {}), r0) ==
                  VisitAll(me, shared, Qualify(prefix, m.members[i..], memo), Abstract())
      {
        var member := m.members[i];
        var visit := InitMember(Qualified(prefix, member, memo));
        if visit.Err? {
          return visit;
        }
        memo := memo + {(member.state, member.isParam)};
        assert m.members[i..][1..] == m.members[i + 1..];
      }
      ghost var r1 := Abstract();
      assert VisitAll(me, shared, Flatten(m, prefix), r0) == VisitAll(me, shared, FlattenAll(m.children, prefix), r1);
      for i := 0 to |m.children|
        invariant VisitAll(me, shared, FlattenAll(m.children, prefix), r1) ==
                  VisitAll(me, shared, FlattenAll(m.children[i..], prefix), Abstract())
      {
        var Child(name, child) := m.children[i];
        assert m.children[i..][1..] == m.children[i + 1..];
        VisitConcat(me, shared, Flatten(child, prefix + name + "."), FlattenAll(m.children[i + 1..], prefix),
            Abstract());
        var init := InitFn(child, prefix + name + ".");
        if init.Err? {
          return init;
        }
      }
      r := Ok(());
    }
  }

  // ------------------------------------------------------------------ what every rank broadcasts

  predicate Fresh(slots: seq<Slot>, i: nat)
    requires i < |slots|
  {
    slots[i].meta && forall j :: 0 <= j < i ==> slots[j].state != slots[i].state
  }

  // The parameters broadcast while the first i members are initialised: one per tensor object on meta.
  function Plan(slots: seq<Slot>, i: nat): (plan: seq<string>)
    requires i <= |slots|
    ensures |plan| <= i
  {
    if i == 0 then [] else Plan(slots, i - 1) + (if Fresh(slots, i - 1) then [slots[i - 1].fqn] else [])
  }

  function First(slots: seq<Slot>, i: nat): (f: nat)
    requires i < |slots|
    ensures f <= i && slots[f].state == slots[i].state
    ensures forall j :: 0 <= j < f ==> slots[j].state != slots[i].state
  {
    FirstFrom(slots, i, 0)
  }

  function FirstFrom(slots: seq<Slot>, i: nat, from: nat): (f: nat)
    requires from <= i < |slots|
    requires forall j :: 0 <= j < from ==> slots[j].state != slots[i].state
    ensures f <= i && slots[f].state == slots[i].state
    ensures forall j :: 0 <= j < f ==> slots[j].state != slots[i].state
    decreases i - from
  {
    if slots[from].state == slots[i].state then from else FirstFrom(slots, i, from + 1)
  }

  function SharedStates(slots: seq<Slot>): set<nat> {
    set i | 0 <= i < |slots| && |NamesOf(slots, slots[i].state)| > 1 :: slots[i].state
  }

  // Which members can be initialised from the table.
  predicate Available(slots: seq<Slot>, i: nat, shard: Shard)
    requires i < |slots|
  {
    slots[i].Visited() ==> (Fresh(slots, i) || !slots[i].isParam ==> Popped(slots, i) in shard)
  }

  function Source(me: nat, e: Entry): nat {
    match e
    case Loaded(_) => me
    case OwnedBy(r) => r
  }

  function Sent(e: Entry): Option<Tensor> {
    match e
    case Loaded(v) => Some(v)
    case OwnedBy(_) => None
  }

  // The state of a rank that has initialised the first i members from the table `shard`.
  ghost predicate NamesAt(slots: seq<Slot>, i: nat, names: map<nat, seq<string>>)
    requires i <= |slots|
  {
    forall j :: 0 <= j < |slots| && slots[j].meta ==> NamesLeft(slots, i, slots[j].state, names)
  }

  ghost predicate NamesLeft(slots: seq<Slot>, i: nat, state: nat, names: map<nat, seq<string>>)
    requires i <= |slots|
  {
    && state in names && Pops(slots, i, state) <= |NameList(slots, state)|
    && names[state] == NameList(slots, state)[Pops(slots, i, state)..]
  }

  ghost predicate ShardAt(slots: seq<Slot>, i: nat, shard: Shard, now: Shard)
    requires i <= |slots|
  {
    now == shard - PoppedBefore(slots, i)
  }

  ghost predicate ObjectsAt(me: nat, plan: seq<string>, shard: Shard, objects: seq<Broadcast>) {
    && |objects| == |plan|
    && (forall k :: 0 <= k < |plan| ==>
          plan[k] in shard && objects[k] == Broadcast(plan[k], Source(me, shard[plan[k]]), Sent(shard[plan[k]])))
  }

  ghost predicate MaterializedAt(slots: seq<Slot>, i: nat, shared: set<nat>, materialized: map<nat, nat>)
    requires i <= |slots|
  {
    forall j :: 0 <= j < |slots| && slots[j].meta && slots[j].state in shared ==>
      MaterializedOne(slots, i, j, materialized)
  }

  ghost predicate MaterializedOne(slots: seq<Slot>, i: nat, j: nat, materialized: map<nat, nat>)
    requires i <= |slots| && j < |slots|
  {
    && (slots[j].state in materialized <==> First(slots, j) < i)
    && (First(slots, j) < i ==> materialized[slots[j].state] == |Plan(slots, First(slots, j))|)
  }

  ghost predicate GivenAt(slots: seq<Slot>, i: nat, given: map<string, nat>)
    requires i <= |slots|
  {
    && (forall j :: 0 <= j < i && slots[j].Visited() ==>
          slots[j].fqn in given && given[slots[j].fqn] == |Plan(slots, First(slots, j))|)
    && (forall p <- given.Keys :: exists j :: 0 <= j < i && slots[j].Visited() && slots[j].fqn == p)
  }

  ghost predicate At(me: nat, slots: seq<Slot>, shared: set<nat>, shard: Shard, i: nat, r: Rank)
    requires i <= |slots|
  {
    && NamesAt(slots, i, r.names)
    && ShardAt(slots, i, shard, r.shard)
    && ObjectsAt(me, Plan(slots, i), shard, r.objects)
    && MaterializedAt(slots, i, shared, r.materialized)
    && GivenAt(slots, i, r.given)
  }

  // ------------------------------------------------------------------ one member, then all of them

  lemma SharedCovers(slots: seq<Slot>, i: nat, j: nat)
    requires i < j < |slots| && slots[i].state == slots[j].state
    ensures |NamesOf(slots, slots[i].state)| > 1
  {
    CountFqns(slots, slots[i].state, i);
    CountFqns(slots, slots[i].state, j);
    if slots[i].isParam == slots[j].isParam {
      CountTwo(slots, i, j);
    }
  }

  lemma {:induction false} CountFqns(slots: seq<Slot>, state: nat, i: nat)
    requires i < |slots| && slots[i].state == state
    ensures |FqnsOf(slots, state, slots[i].isParam)| >= 1
  {
    if i > 0 {
      CountFqns(slots[1..], state, i - 1);
    }
  }

  lemma {:induction false} CountTwo(slots: seq<Slot>, i: nat, j: nat)
    requires i < j < |slots| && slots[i].state == slots[j].state && slots[i].isParam == slots[j].isParam
    ensures |FqnsOf(slots, slots[i].state, slots[i].isParam)| >= 2
  {
    if i > 0 {
      CountTwo(slots[1..], i - 1, j - 1);
    } else {
      CountFqns(slots[1..], slots[i].state, j - 1);
    }
  }

  lemma NamesStep(slots: seq<Slot>, i: nat, names: map<nat, seq<string>>)
    requires i < |slots| && slots[i].Visited() && NamesAt(slots, i, names)
    ensures var state := slots[i].state;
            state in names && names[state] != [] && names[state][0] == Popped(slots, i)
            && NamesAt(slots, i + 1, names[state := names[state][1..]])
  {
    var state := slots[i].state;
    PopsWithin(slots, i, state);
    OwnName(slots, i);
    hide NameList;
    assert NamesLeft(slots, i, state, names);
    var next := names[state := names[state][1..]];
    forall j | 0 <= j < |slots| && slots[j].meta
      ensures NamesLeft(slots, i + 1, slots[j].state, next)
    {
      assert NamesLeft(slots, i, slots[j].state, names);
    }
  }

  lemma NamesSkip(slots: seq<Slot>, i: nat, names: map<nat, seq<string>>)
    requires i < |slots| && !slots[i].Visited() && NamesAt(slots, i, names)
    ensures NamesAt(slots, i + 1, names)
  {
    hide NameList;
    forall j | 0 <= j < |slots| && slots[j].meta
      ensures NamesLeft(slots, i + 1, slots[j].state, names)
    {
      assert NamesLeft(slots, i, slots[j].state, names);
    }
  }

  lemma ShardStep(slots: seq<Slot>, i: nat, shard: Shard, now: Shard)
    requires DistinctNames(slots) && i < |slots| && ShardAt(slots, i, shard, now)
    ensures !slots[i].Visited() ==> ShardAt(slots, i + 1, shard, now)
    ensures slots[i].Visited() ==>
              var p := Popped(slots, i);
              (p in now <==> p in shard) && (p in now ==> now[p] == shard[p]) && ShardAt(slots, i + 1, shard, now - {p})
  {
    if slots[i].Visited() {
      NotPoppedYet(slots, i, i);
    }
    hide Popped;
  }

  // First visits add the plan's next entry; later visits of a shared object find it.
  lemma MaterializedStep(slots: seq<Slot>, i: nat, shared: set<nat>, materialized: map<nat, nat>)
    requires KindConsistent(slots) && i < |slots| && slots[i].meta && MaterializedAt(slots, i, shared, materialized)
    requires slots[i].state in shared
    ensures slots[i].state in materialized <==> !Fresh(slots, i)
    ensures Fresh(slots, i) ==> MaterializedAt(slots, i + 1, shared, materialized[slots[i].state := |Plan(slots, i)|])
    ensures !Fresh(slots, i) ==> MaterializedAt(slots, i + 1, shared, materialized)
    ensures !Fresh(slots, i) ==> materialized[slots[i].state] == |Plan(slots, First(slots, i))|
  {
    hide First, Plan, MaterializedOne, Fresh;
    assert MaterializedOne(slots, i, i, materialized);
    var next := if Fresh(slots, i) then materialized[slots[i].state := |Plan(slots, i)|] else materialized;
    forall j | 0 <= j < |slots| && slots[j].meta && slots[j].state in shared
      ensures MaterializedOne(slots, i + 1, j, next)
    {
      MaterializedNext(slots, i, j, materialized);
    }
    MaterializedNow(slots, i, materialized);
  }

  lemma MaterializedNow(slots: seq<Slot>, i: nat, materialized: map<nat, nat>)
    requires KindConsistent(slots) && i < |slots| && slots[i].meta && MaterializedOne(slots, i, i, materialized)
    ensures slots[i].state in materialized <==> !Fresh(slots, i)
    ensures !Fresh(slots, i) ==> materialized[slots[i].state] == |Plan(slots, First(slots, i))|
  {
    hide First, Plan;
    FreshIsFirst(slots, i);
  }

  lemma MaterializedNext(slots: seq<Slot>, i: nat, j: nat, materialized: map<nat, nat>)
    requires KindConsistent(slots) && i < |slots| && j < |slots| && slots[i].meta
    requires MaterializedOne(slots, i, i, materialized) && MaterializedOne(slots, i, j, materialized)
    ensures MaterializedOne(slots, i + 1, j,
              if Fresh(slots, i) then materialized[slots[i].state := |Plan(slots, i)|] else materialized)
  {
    hide First, Plan, Fresh;
    FreshIsFirst(slots, i);
    SameFirst(slots, i, j);
  }

  lemma SameFirst(slots: seq<Slot>, i: nat, j: nat)
    requires i < |slots| && j < |slots|
    ensures slots[j].state == slots[i].state ==> First(slots, j) == First(slots, i)
    ensures slots[j].state != slots[i].state ==> First(slots, j) != i
  {
  }

  lemma MaterializedSkip(slots: seq<Slot>, i: nat, shared: set<nat>, materialized: map<nat, nat>)
    requires Listing(slots) && i < |slots| && MaterializedAt(slots, i, shared, materialized)
    requires !slots[i].Visited() || slots[i].state !in shared
    ensures MaterializedAt(slots, i + 1, shared, materialized)
  {
    forall j | 0 <= j < |slots| && slots[j].meta && slots[j].state in shared
      ensures First(slots, j) != i
      ensures MaterializedOne(slots, i + 1, j, materialized)
    {
      FirstVisited(slots, j);
      assert MaterializedOne(slots, i, j, materialized);
    }
  }

  // The first name of a tensor on meta is visited.
  lemma FirstVisited(slots: seq<Slot>, j: nat)
    requires Listing(slots) && j < |slots| && slots[j].meta
    ensures slots[First(slots, j)].Visited()
  {
  }

  // And then its own name is popped.
  lemma FreshPopsOwn(slots: seq<Slot>, i: nat)
    requires Listing(slots) && i < |slots| && Fresh(slots, i)
    ensures slots[i].Visited() && Popped(slots, i) == slots[i].fqn
  {
    PoppedIsOwn(slots, i);
  }

  lemma FreshIsFirst(slots: seq<Slot>, i: nat)
    requires KindConsistent(slots) && i < |slots| && slots[i].meta
    ensures Fresh(slots, i) <==> First(slots, i) == i
    ensures slots[i].state !in SharedStates(slots) ==> Fresh(slots, i)
  {
    if First(slots, i) < i {
      SharedCovers(slots, First(slots, i), i);
    }
  }

  lemma ObjectsStep(me: nat, slots: seq<Slot>, i: nat, shard: Shard, objects: seq<Broadcast>)
    requires i < |slots| && ObjectsAt(me, Plan(slots, i), shard, objects)
    ensures !Fresh(slots, i) ==> ObjectsAt(me, Plan(slots, i + 1), shard, objects)
    ensures |objects| == |Plan(slots, i)|
    ensures var p := slots[i].fqn;
            Fresh(slots, i) && p in shard ==>
              ObjectsAt(me, Plan(slots, i + 1), shard, objects + [Broadcast(p, Source(me, shard[p]), Sent(shard[p]))])
  {
  }

  lemma GivenStep(slots: seq<Slot>, i: nat, given: map<string, nat>)
    requires DistinctNames(slots) && i < |slots| && GivenAt(slots, i, given)
    ensures !slots[i].Visited() ==> GivenAt(slots, i + 1, given)
    ensures slots[i].Visited() ==> GivenAt(slots, i + 1, given[slots[i].fqn := |Plan(slots, First(slots, i))|])
  {
    hide Plan, First;
  }

  lemma VisitSkipped(me: nat, slots: seq<Slot>, shared: set<nat>, shard: Shard, i: nat, r: Rank)
    requires Listing(slots)
    requires i < |slots| && At(me, slots, shared, shard, i, r) && !slots[i].Visited()
    ensures At(me, slots, shared, shard, i + 1, r)
  {
    NamesSkip(slots, i, r.names);
    ShardStep(slots, i, shard, r.shard);
    ObjectsStep(me, slots, i, shard, r.objects);
    MaterializedSkip(slots, i, shared, r.materialized);
    GivenStep(slots, i, r.given);
    if Fresh(slots, i) {
      FreshPopsOwn(slots, i);
    }
    hide NamesAt, ShardAt, ObjectsAt, MaterializedAt, GivenAt, Plan;
  }

  lemma VisitStep(me: nat, slots: seq<Slot>, shared: set<nat>, shard: Shard, i: nat, r: Rank)
    requires Listing(slots) && shared == SharedStates(slots)
    requires i < |slots| && At(me, slots, shared, shard, i, r)
    ensures Visit(me, shared, slots[i], r).Ok? <==> Available(slots, i, shard)
    ensures Visit(me, shared, slots[i], r).Ok? ==> At(me, slots, shared, shard, i + 1, Visit(me, shared, slots[i],
        r).value)
  {
    hide NamesAt, ShardAt, ObjectsAt, MaterializedAt, GivenAt, KindConsistent, DistinctNames, SharedStates, Plan,
      AgainFollows, Popped;
    if !slots[i].Visited() {
      VisitSkipped(me, slots, shared, shard, i, r);
    } else {
      NamesStep(slots, i, r.names);
      ShardStep(slots, i, shard, r.shard);
      ObjectsStep(me, slots, i, shard, r.objects);
      GivenStep(slots, i, r.given);
      FreshIsFirst(slots, i);
      if Fresh(slots, i) {
        FreshPopsOwn(slots, i);
      }
      if slots[i].state in shared {
        MaterializedStep(slots, i, shared, r.materialized);
      } else {
        MaterializedSkip(slots, i, shared, r.materialized);
      }
      if Popped(slots, i) !in r.shard {
        assert r.shard - {Popped(slots, i)} == r.shard;
      }
    }
  }

  lemma {:induction false} VisitAllCorrect(me: nat, slots: seq<Slot>, shared: set<nat>, shard: Shard, i: nat,
                                           upto: nat, r: Rank)
    requires Listing(slots) && shared == SharedStates(slots)
    requires i <= upto <= |slots| && At(me, slots, shared, shard, i, r)
    ensures var out := VisitAll(me, shared, slots[i..upto], r);
            (out.Ok? <==> forall j :: i <= j < upto ==> Available(slots, j, shard))
            && (out.Ok? ==> At(me, slots, shared, shard, upto, out.value))
    decreases upto - i
  {
    hide At, Listing, SharedStates, Visit, Available;
    if i < upto {
      assert slots[i..upto][0] == slots[i] && slots[i..upto][1..] == slots[i + 1..upto];
      VisitStep(me, slots, shared, shard, i, r);
      if Available(slots, i, shard) {
        VisitAllCorrect(me, slots, shared, shard, i + 1, upto, Visit(me, shared, slots[i], r).value);
      }
    } else {
      assert slots[i..upto] == [];
    }
  }

  // ------------------------------------------------------------------ the job

  function InitialRank(shard: Shard, names: map<nat, seq<string>>): Rank {
    Rank(shard, names, map[], [], map[])
  }

  ghost predicate NameTable(slots: seq<Slot>, names: map<nat, seq<string>>) {
    forall j :: 0 <= j < |slots| ==> slots[j].state in names && names[slots[j].state] == NamesOf(slots, slots[j].state)
  }

  // A rank of the job after the members before `upto`.
  function RankAfter(me: nat, slots: seq<Slot>, names: map<nat, seq<string>>, shard: Shard, upto: nat): Result<Rank,
                     Error>
    requires upto <= |slots|
  {
    VisitAll(me, SharedStates(slots), slots[..upto], InitialRank(shard, names))
  }

  ghost predicate InCheckpoint(contents: seq<map<string, Tensor>>, p: string) {
    exists i :: 0 <= i < |contents| && p in contents[i]
  }

  ghost function FileOf(contents: seq<map<string, Tensor>>, p: string): (i: nat)
    requires InCheckpoint(contents, p)
    ensures i < |contents| && p in contents[i]
  {
    var i :| 0 <= i < |contents| && p in contents[i];
    i
  }

  ghost predicate Loadable(slots: seq<Slot>, contents: seq<map<string, Tensor>>, j: nat)
    requires j < |slots|
  {
    slots[j].Visited() && (Fresh(slots, j) || !slots[j].isParam) ==> InCheckpoint(contents, Popped(slots, j))
  }

  lemma TableEntry(contents: seq<map<string, Tensor>>, world: nat, me: nat, shard: Shard, p: string)
    requires world > 0 && Checkpoint(contents) && Entered(contents, world, me, |contents|, shard)
    ensures p in shard <==> InCheckpoint(contents, p)
    ensures p in shard ==>
              var i := FileOf(contents, p);
              Source(me, shard[p]) == Owner(|contents|, world, i)
              && Sent(shard[p]) == if me == Owner(|contents|, world, i) then Some(contents[i][p]) else None
  {
  }

  lemma StartAt(me: nat, slots: seq<Slot>, names: map<nat, seq<string>>, shard: Shard)
    requires KindConsistent(slots) && NameTable(slots, names)
    ensures At(me, slots, SharedStates(slots), shard, 0, InitialRank(shard, names))
  {
    hide NamesOf, NameList;
    forall j | 0 <= j < |slots| && slots[j].meta
      ensures NamesLeft(slots, 0, slots[j].state, names)
    {
      NamesInOrder(slots, slots[j].state);
    }
  }

  // The k-th broadcast is the k-th of the plan, from the owner of its file, who sends the file's value.
  ghost predicate FollowsPlan(me: nat, contents: seq<map<string, Tensor>>, world: nat, plan: seq<string>,
                              objects: seq<Broadcast>)
    requires world > 0
  {
    && |objects| == |plan|
    && (forall k :: 0 <= k < |plan| ==>
          InCheckpoint(contents, plan[k])
          && var i := FileOf(contents, plan[k]);
             var o := Owner(|contents|, world, i);
             objects[k] == Broadcast(plan[k], o, if me == o then Some(contents[i][plan[k]]) else None))
  }

  // A rank gets through a prefix of the members exactly when the checkpoint has what it needs, and has then
  // issued exactly the planned broadcasts, each from the owner of the file and with the owner's value there.
  lemma RankFollowsPlan(me: nat, slots: seq<Slot>, names: map<nat, seq<string>>, contents: seq<map<string, Tensor>>,
                        world: nat, shard: Shard, upto: nat)
    requires Listing(slots) && NameTable(slots, names) && upto <= |slots|
    requires world > 0 && Checkpoint(contents) && Entered(contents, world, me, |contents|, shard)
    ensures var out := RankAfter(me, slots, names, shard, upto);
            (out.Ok? <==> forall j :: 0 <= j < upto ==> Loadable(slots, contents, j))
            && (out.Ok? ==>
                  GivenAt(slots, upto, out.value.given)
                  && FollowsPlan(me, contents, world, Plan(slots, upto), out.value.objects))
  {
    StartAt(me, slots, names, shard);
    assert slots[0..upto] == slots[..upto];
    hide NamesAt, ShardAt, MaterializedAt, ObjectsAt, GivenAt, Listing, SharedStates, Plan, NameTable, VisitAll,
      Entered, Checkpoint, Available, Loadable, FollowsPlan;
    VisitAllCorrect(me, slots, SharedStates(slots), shard, 0, upto, InitialRank(shard, names));
    forall j | 0 <= j < upto
      ensures Available(slots, j, shard) <==> Loadable(slots, contents, j)
    {
      LoadableHere(me, slots, contents, world, shard, j);
    }
    var out := RankAfter(me, slots, names, shard, upto);
    if out.Ok? {
      ObjectsFollow(me, contents, world, shard, Plan(slots, upto), out.value.objects);
    }
  }

  lemma LoadableHere(me: nat, slots: seq<Slot>, contents: seq<map<string, Tensor>>, world: nat, shard: Shard, j: nat)
    requires world > 0 && Checkpoint(contents) && Entered(contents, world, me, |contents|, shard) && j < |slots|
    ensures Available(slots, j, shard) <==> Loadable(slots, contents, j)
  {
    TableEntry(contents, world, me, shard, Popped(slots, j));
    hide Entered, Checkpoint, InCheckpoint, Popped;
  }

  lemma ObjectsFollow(me: nat, contents: seq<map<string, Tensor>>, world: nat, shard: Shard, plan: seq<string>,
                      objects: seq<Broadcast>)
    requires world > 0 && Checkpoint(contents) && Entered(contents, world, me, |contents|, shard)
    requires ObjectsAt(me, plan, shard, objects)
    ensures FollowsPlan(me, contents, world, plan, objects)
  {
    hide Entered, Checkpoint, InCheckpoint, FileOf, Owner;
    forall k | 0 <= k < |plan|
      ensures InCheckpoint(contents, plan[k])
      ensures var i := FileOf(contents, plan[k]);
              var o := Owner(|contents|, world, i);
              objects[k] == Broadcast(plan[k], o, if me == o then Some(contents[i][plan[k]]) else None)
    {
      TableEntry(contents, world, me, shard, plan[k]);
    }
  }

  predicate SameBroadcasts(a: seq<Broadcast>, b: seq<Broadcast>) {
    |a| == |b| && forall k :: 0 <= k < |a| ==> a[k].fqn == b[k].fqn && a[k].source == b[k].source
  }

  // No rank ever waits in a collective another rank does not enter: at every member either all ranks
  // have come so far, with the same broadcasts from the same sources, or none has.
  lemma RanksInLockstep(a: nat, b: nat, slots: seq<Slot>, names: map<nat, seq<string>>,
                        contents: seq<map<string, Tensor>>, world: nat, shardA: Shard, shardB: Shard, upto: nat)
    requires Listing(slots) && NameTable(slots, names) && upto <= |slots|
    requires world > 0 && Checkpoint(contents)
    requires Entered(contents, world, a, |contents|, shardA) && Entered(contents, world, b, |contents|, shardB)
    ensures var x, y := RankAfter(a, slots, names, shardA, upto), RankAfter(b, slots, names, shardB, upto);
            x.Ok? == y.Ok?
            && (x.Ok? ==> SameBroadcasts(x.value.objects, y.value.objects))
  {
    hide RankAfter, Loadable, Plan, Entered, Checkpoint, Listing, NameTable, GivenAt;
    RankFollowsPlan(a, slots, names, contents, world, shardA, upto);
    RankFollowsPlan(b, slots, names, contents, world, shardB, upto);
  }

  lemma {:induction false} PlanGrows(slots: seq<Slot>, f: nat, upto: nat)
    requires f < upto <= |slots|
    ensures Plan(slots, f) <= Plan(slots, upto)
    ensures Fresh(slots, f) ==>
              |Plan(slots, f)| < |Plan(slots, upto)| && Plan(slots, upto)[|Plan(slots, f)|] == slots[f].fqn
    decreases upto - f
  {
    if f + 1 < upto {
      PlanGrows(slots, f, upto - 1);
    }
  }

  // All visited names of one tensor object get one materialised object, different tensor objects get different
  // ones, and that object's broadcast carries, on the rank it comes from, the checkpoint's value of its first name.
  lemma SharedObjectsOnce(me: nat, slots: seq<Slot>, names: map<nat, seq<string>>, contents: seq<map<string, Tensor>>,
                          world: nat, shard: Shard, i: nat, j: nat)
    requires Listing(slots) && NameTable(slots, names)
    requires world > 0 && Checkpoint(contents) && Entered(contents, world, me, |contents|, shard)
    requires i < |slots| && j < |slots| && slots[i].Visited() && slots[j].Visited()
    requires RankAfter(me, slots, names, shard, |slots|).Ok?
    ensures var r := RankAfter(me, slots, names, shard, |slots|).value;
            var p := slots[First(slots, i)].fqn;
            slots[i].fqn in r.given && slots[j].fqn in r.given
            && (r.given[slots[i].fqn] == r.given[slots[j].fqn] <==> slots[i].state == slots[j].state)
            && r.given[slots[i].fqn] < |r.objects| && InCheckpoint(contents, p)
            && var b := r.objects[r.given[slots[i].fqn]];
               b.fqn == p && b.source < world
               && (me == b.source ==> b.sent == Some(contents[FileOf(contents, p)][p]))
  {
    var n := |slots|;
    var f, g := First(slots, i), First(slots, j);
    assert Fresh(slots, f) && Fresh(slots, g);
    assert slots[i].state == slots[j].state <==> f == g;
    RankFollowsPlan(me, slots, names, contents, world, shard, n);
    hide RankAfter, Plan, Entered, Checkpoint, Listing, NameTable, Fresh, Loadable, Owner;
    PlanGrows(slots, f, n);
    if f < g {
      PlanGrows(slots, f, g);
    } else if g < f {
      PlanGrows(slots, g, f);
    }
    OwnerInRange(|contents|, world, FileOf(contents, slots[f].fqn));
  }

  // Whatever rank receives the k-th broadcast, the rank it comes from is in the same broadcast and sends the
  // checkpoint's value: every rank ends with the owner's value.
  lemma BroadcastDelivers(a: nat, slots: seq<Slot>, names: map<nat, seq<string>>, contents: seq<map<string, Tensor>>,
                          world: nat, shardA: Shard, o: nat, shardO: Shard, upto: nat, k: nat)
    requires Listing(slots) && NameTable(slots, names) && upto <= |slots|
    requires world > 0 && Checkpoint(contents)
    requires Entered(contents, world, a, |contents|, shardA) && Entered(contents, world, o, |contents|, shardO)
    requires var x := RankAfter(a, slots, names, shardA, upto);
             x.Ok? && k < |x.value.objects| && x.value.objects[k].source == o
    ensures var p := RankAfter(a, slots, names, shardA, upto).value.objects[k].fqn;
            var y := RankAfter(o, slots, names, shardO, upto);
            InCheckpoint(contents, p) && o < world
            && y.Ok? && k < |y.value.objects|
            && y.value.objects[k] == Broadcast(p, o, Some(contents[FileOf(contents, p)][p]))
  {
    hide RankAfter, Loadable, Plan, Entered, Checkpoint, Listing, NameTable, GivenAt, Owner;
    RankFollowsPlan(a, slots, names, contents, world, shardA, upto);
    RankFollowsPlan(o, slots, names, contents, world, shardO, upto);
    OwnerInRange(|contents|, world, FileOf(contents, Plan(slots, upto)[k]));
  }

  // ------------------------------------------------------------------ names that are left out

  // Every name of a tensor on meta is given its materialised object exactly when none is listed again.
  lemma EveryNameGiven(me: nat, slots: seq<Slot>, names: map<nat, seq<string>>, contents: seq<map<string, Tensor>>,
                       world: nat, shard: Shard)
    requires Listing(slots) && NameTable(slots, names)
    requires world > 0 && Checkpoint(contents) && Entered(contents, world, me, |contents|, shard)
    requires RankAfter(me, slots, names, shard, |slots|).Ok?
    ensures var given := RankAfter(me, slots, names, shard, |slots|).value.given;
            (forall i :: 0 <= i < |slots| && slots[i].meta ==> slots[i].fqn in given) <==> AllVisited(slots)
  {
    RankFollowsPlan(me, slots, names, contents, world, shard, |slots|);
    hide RankAfter, GivenAt, Entered, Checkpoint, NameTable, Loadable, FollowsPlan;
    GivenAreVisited(slots, RankAfter(me, slots, names, shard, |slots|).value.given);
  }

  lemma GivenAreVisited(slots: seq<Slot>, given: map<string, nat>)
    requires DistinctNames(slots) && GivenAt(slots, |slots|, given)
    ensures (forall i :: 0 <= i < |slots| && slots[i].meta ==> slots[i].fqn in given) <==> AllVisited(slots)
  {
    hide Plan, First;
    forall i | 0 <= i < |slots| && slots[i].fqn in given
      ensures slots[i].Visited()
    {
      var j :| 0 <= j < |slots| && slots[j].Visited() && slots[j].fqn == slots[i].fqn;
    }
  }

  // For a module tree: exactly when no module holds one tensor on meta under two of its own names.
  lemma EveryNameGivenExactlyWhen(me: nat, m: Module, prefix: string, names: map<nat, seq<string>>,
                                  contents: seq<map<string, Tensor>>, world: nat, shard: Shard)
    requires var slots := Flatten(m, prefix);
             KindConsistent(slots) && DistinctNames(slots) && NameTable(slots, names)
    requires world > 0 && Checkpoint(contents) && Entered(contents, world, me, |contents|, shard)
    requires RankAfter(me, Flatten(m, prefix), names, shard, |Flatten(m, prefix)|).Ok?
    ensures var slots := Flatten(m, prefix);
            var given := RankAfter(me, slots, names, shard, |slots|).value.given;
            (forall i :: 0 <= i < |slots| && slots[i].meta ==> slots[i].fqn in given) <==> NoDoubles(m)
  {
    FlattenVisited(m, prefix);
    hide RankAfter, Flatten, NoDoubles, AllVisited, Entered, NameTable;
    EveryNameGiven(me, Flatten(m, prefix), names, contents, world, shard);
  }

  // ------------------------------------------------------------------ the outcome on all ranks

  // What rank r's k-th object holds once the broadcasts have been matched: what its source has put in.
  function Received(job: seq<seq<Broadcast>>, r: nat, k: nat): Option<Tensor>
    requires r < |job| && k < |job[r]|
  {
    var b := job[r][k];
    if b.source < |job| && k < |job[b.source]| then job[b.source][k].sent else None
  }

  ghost predicate TablesLoaded(contents: seq<map<string, Tensor>>, shards: seq<Shard>) {
    |shards| > 0 && forall r :: 0 <= r < |shards| ==> Entered(contents, |shards|, r, |contents|, shards[r])
  }

  ghost predicate AllThrough(slots: seq<Slot>, names: map<nat, seq<string>>, shards: seq<Shard>) {
    forall r :: 0 <= r < |shards| ==> RankAfter(r, slots, names, shards[r], |slots|).Ok?
  }

  ghost function Job(slots: seq<Slot>, names: map<nat, seq<string>>, shards: seq<Shard>): (job: seq<seq<Broadcast>>)
    requires AllThrough(slots, names, shards)
  {
    seq(|shards|, r requires 0 <= r < |shards| => RankAfter(r, slots, names, shards[r], |slots|).value.objects)
  }

  // All ranks of a job get through or none does; and then every visited name on every rank holds the checkpoint's
  // value of the tensor's first name.
  lemma JobEndsWithCheckpoint(slots: seq<Slot>, names: map<nat, seq<string>>, contents: seq<map<string, Tensor>>,
                              shards: seq<Shard>, r: nat, i: nat)
    requires Listing(slots) && NameTable(slots, names) && Checkpoint(contents) && TablesLoaded(contents, shards)
    requires r < |shards| && i < |slots| && slots[i].Visited()
    ensures RankAfter(r, slots, names, shards[r], |slots|).Ok? <==> AllThrough(slots, names, shards)
    ensures AllThrough(slots, names, shards) ==>
              var given := RankAfter(r, slots, names, shards[r], |slots|).value.given;
              var job, p := Job(slots, names, shards), slots[First(slots, i)].fqn;
              && slots[i].fqn in given && given[slots[i].fqn] < |job[r]|
              && InCheckpoint(contents, p)
              && Received(job, r, given[slots[i].fqn]) == Some(contents[FileOf(contents, p)][p])
  {
    hide RankAfter, Entered, Checkpoint, Listing, NameTable, First, FileOf;
    var n, world := |slots|, |shards|;
    forall q | 0 <= q < world
      ensures RankAfter(q, slots, names, shards[q], n).Ok? == RankAfter(r, slots, names, shards[r], n).Ok?
    {
      RanksInLockstep(q, r, slots, names, contents, world, shards[q], shards[r], n);
    }
    if AllThrough(slots, names, shards) {
      SharedObjectsOnce(r, slots, names, contents, world, shards[r], i, i);
      var x := RankAfter(r, slots, names, shards[r], n).value;
      var k := x.given[slots[i].fqn];
      var o := x.objects[k].source;
      BroadcastDelivers(r, slots, names, contents, world, shards[r], o, shards[o], n, k);
    }
  }
}
