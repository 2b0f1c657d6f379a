/** What the weight map must say for all ranks to enter the same tables.  Each rank enters what its own files hold,
    whatever the weight map lists, and what the weight map lists under the other files, whatever they hold. */
module CheckpointIndex {
  import opened Wrappers
  import opened ParallelLoad
  import opened ModuleNames

  // The weight map is a dictionary: it lists a name under one file.
  ghost predicate OneFileEach(index: seq<set<string>>) {
    forall i, j, p :: 0 <= i < |index| && 0 <= j < |index| && p in index[i] && p in index[j] ==> i == j
  }

  ghost predicate Inputs(contents: seq<map<string, Tensor>>, index: seq<set<string>>, world: nat) {
    world > 0 && |contents| == |index| && OneFileEach(index)
  }

  predicate Listed(index: seq<set<string>>, p: string) {
    exists i :: 0 <= i < |index| && p in index[i]
  }

  // Some file of the rank holds the name.
  predicate HeldBy(contents: seq<map<string, Tensor>>, world: nat, o: nat, p: string)
    requires world > 0
  {
    exists f :: 0 <= f < |contents| && Owner(|contents|, world, f) == o && p in contents[f]
  }

  // A listed name is held by the rank that its file belongs to, and by no later file of another rank.
  ghost predicate ListedRight(contents: seq<map<string, Tensor>>, index: seq<set<string>>, world: nat, i: nat,
                              p: string)
    requires world > 0 && i < |contents|
  {
    var o := Owner(|contents|, world, i);
    && HeldBy(contents, world, o, p)
    && forall f :: i < f < |contents| && p in contents[f] ==> Owner(|contents|, world, f) == o
  }

  // And the files hold no name that is not listed.
  ghost predicate IndexServes(contents: seq<map<string, Tensor>>, index: seq<set<string>>, world: nat)
    requires world > 0 && |contents| == |index|
  {
    && (forall i, p :: 0 <= i < |index| && p in index[i] ==> ListedRight(contents, index, world, i, p))
    && (forall f, p :: 0 <= f < |contents| && p in contents[f] ==> Listed(index, p))
  }

  // ------------------------------------------------------------------ one entry

  predicate Seen(contents: seq<map<string, Tensor>>, index: seq<set<string>>, world: nat, me: nat, i: nat, p: string)
    requires world > 0 && i < |contents| == |index|
  {
    if Owner(|contents|, world, i) == me then p in contents[i] else p in index[i]
  }

  // An entry comes from the last file under which the rank sees the name.
  lemma {:induction false} EntryFrom(contents: seq<map<string, Tensor>>, index: seq<set<string>>, world: nat, me: nat,
                                     upto: nat, p: string) returns (i: nat)
    requires world > 0 && upto <= |contents| == |index| && p in Table(contents, index, world, me, upto)
    ensures i < upto && Seen(contents, index, world, me, i, p)
    ensures forall f :: i < f < upto ==> !Seen(contents, index, world, me, f, p)
    ensures var entry := Table(contents, index, world, me, upto)[p];
            && Source(me, entry) == Owner(|contents|, world, i)
            && Sent(entry) == if Owner(|contents|, world, i) == me then Some(contents[i][p]) else None
  {
    hide Owner;
    if Seen(contents, index, world, me, upto - 1, p) {
      i := upto - 1;
    } else {
      i := EntryFrom(contents, index, world, me, upto - 1, p);
    }
  }

  lemma {:induction false} SeenIsEntered(contents: seq<map<string, Tensor>>, index: seq<set<string>>, world: nat,
                                         me: nat, upto: nat, i: nat, p: string)
    requires world > 0 && i < upto <= |contents| == |index| && Seen(contents, index, world, me, i, p)
    ensures p in Table(contents, index, world, me, upto)
  {
    hide Owner;
    if i < upto - 1 {
      SeenIsEntered(contents, index, world, me, upto - 1, i, p);
    }
  }

  // ------------------------------------------------------------------ all tables

  function Whole(contents: seq<map<string, Tensor>>, index: seq<set<string>>, world: nat, me: nat): Shard
    requires world > 0 && |contents| == |index|
  {
    Table(contents, index, world, me, |contents|)
  }

  // The same names from the same ranks.
  predicate Agree(a: nat, x: Shard, b: nat, y: Shard) {
    x.Keys == y.Keys && forall p <- x.Keys :: Source(a, x[p]) == Source(b, y[p])
  }

  ghost predicate TablesAgree(contents: seq<map<string, Tensor>>, index: seq<set<string>>, world: nat)
    requires world > 0 && |contents| == |index|
  {
    forall a: nat, b: nat :: a < world && b < world ==>
      Agree(a, Whole(contents, index, world, a), b, Whole(contents, index, world, b))
  }

  // With an index that serves, a rank enters the listed names, from the ranks their files belong to.
  lemma ServedEntry(contents: seq<map<string, Tensor>>, index: seq<set<string>>, world: nat, me: nat, p: string)
    requires Inputs(contents, index, world) && IndexServes(contents, index, world)
    ensures p in Whole(contents, index, world, me) <==> Listed(index, p)
    ensures forall i :: 0 <= i < |index| && p in index[i] && p in Whole(contents, index, world, me) ==>
              Source(me, Whole(contents, index, world, me)[p]) == Owner(|contents|, world, i)
  {
    hide Owner, Table;
    var n := |contents|;
    if i :| 0 <= i < n && p in index[i] {
      assert ListedRight(contents, index, world, i, p);
      if Owner(n, world, i) == me {
        var f :| 0 <= f < n && Owner(n, world, f) == me && p in contents[f];
        SeenIsEntered(contents, index, world, me, n, f, p);
      } else {
        assert Seen(contents, index, world, me, i, p);
        SeenIsEntered(contents, index, world, me, n, i, p);
      }
      var last := EntryFrom(contents, index, world, me, n, p);
      assert Owner(n, world, last) == Owner(n, world, i);
    }
    if p in Whole(contents, index, world, me) {
      var last := EntryFrom(contents, index, world, me, n, p);
    }
  }

  lemma ServedAgree(contents: seq<map<string, Tensor>>, index: seq<set<string>>, world: nat, a: nat, b: nat)
    requires Inputs(contents, index, world) && IndexServes(contents, index, world)
    ensures Agree(a, Whole(contents, index, world, a), b, Whole(contents, index, world, b))
  {
    hide IndexServes, Owner, Whole;
    forall p: string
      ensures p in Whole(contents, index, world, a) <==> p in Whole(contents, index, world, b)
      ensures p in Whole(contents, index, world, a) && p in Whole(contents, index, world, b) ==>
                Source(a, Whole(contents, index, world, a)[p]) == Source(b, Whole(contents, index, world, b)[p])
    {
      ServedEntry(contents, index, world, a, p);
      ServedEntry(contents, index, world, b, p);
    }
  }

  // A rank that holds a name in a file, and sees it nowhere else later, loads it itself.
  lemma HolderEntry(contents: seq<map<string, Tensor>>, index: seq<set<string>>, world: nat, f: nat, p: string)
    requires Inputs(contents, index, world) && f < |contents| && p in contents[f]
    requires forall i :: f <= i < |index| && p in index[i] ==>
               Owner(|contents|, world, i) == Owner(|contents|, world, f)
    ensures var q := Owner(|contents|, world, f);
            p in Whole(contents, index, world, q) && Source(q, Whole(contents, index, world, q)[p]) == q
  {
    hide Owner, Table;
    var q, n := Owner(|contents|, world, f), |contents|;
    assert Seen(contents, index, world, q, f, p);
    SeenIsEntered(contents, index, world, q, n, f, p);
    var last := EntryFrom(contents, index, world, q, n, p);
  }

  // When the tables agree, a listed name comes from the rank that its file belongs to.
  lemma ListedSource(contents: seq<map<string, Tensor>>, index: seq<set<string>>, world: nat, i: nat, p: string)
    requires Inputs(contents, index, world) && TablesAgree(contents, index, world) && world > 1
    requires i < |index| && p in index[i]
    ensures var o := Owner(|contents|, world, i);
            p in Whole(contents, index, world, o) && Source(o, Whole(contents, index, world, o)[p]) == o
            && HeldBy(contents, world, o, p)
  {
    OwnerInRange(|contents|, world, i);
    hide Owner, Table;
    var o, n := Owner(|contents|, world, i), |contents|;
    var r := if o == 0 then 1 else 0;
    assert Seen(contents, index, world, r, i, p);
    SeenIsEntered(contents, index, world, r, n, i, p);
    assert Agree(o, Whole(contents, index, world, o), r, Whole(contents, index, world, r));
    assert p in Whole(contents, index, world, r);
    var last := EntryFrom(contents, index, world, o, n, p);
  }

  lemma AgreeingServe(contents: seq<map<string, Tensor>>, index: seq<set<string>>, world: nat)
    requires Inputs(contents, index, world) && TablesAgree(contents, index, world) && world > 1
    ensures IndexServes(contents, index, world)
  {
    hide Owner, Whole, OneFileEach, HeldBy;
    var n := |contents|;
    forall i, p | 0 <= i < |index| && p in index[i]
      ensures ListedRight(contents, index, world, i, p)
    {
      ListedSource(contents, index, world, i, p);
      var o := Owner(n, world, i);
      forall f | i < f < n && p in contents[f]
        ensures Owner(n, world, f) == o
      {
        AgreeingLater(contents, index, world, i, f, p);
      }
    }
    forall f, p | 0 <= f < n && p in contents[f]
      ensures Listed(index, p)
    {
      AgreeingListed(contents, index, world, f, p);
    }
  }

  lemma AgreeingLater(contents: seq<map<string, Tensor>>, index: seq<set<string>>, world: nat, i: nat, f: nat,
                      p: string)
    requires Inputs(contents, index, world) && TablesAgree(contents, index, world) && world > 1
    requires i < f < |index| && p in index[i] && p in contents[f]
    ensures Owner(|contents|, world, f) == Owner(|contents|, world, i)
  {
    var o, q := Owner(|contents|, world, i), Owner(|contents|, world, f);
    OwnerInRange(|contents|, world, i);
    OwnerInRange(|contents|, world, f);
    hide Owner, Whole;
    ListedSource(contents, index, world, i, p);
    HolderEntry(contents, index, world, f, p);
    assert Agree(o, Whole(contents, index, world, o), q, Whole(contents, index, world, q));
  }

  // An unlisted name would come from the rank itself on two ranks, or be missing on one.
  lemma AgreeingListed(contents: seq<map<string, Tensor>>, index: seq<set<string>>, world: nat, f: nat, p: string)
    requires Inputs(contents, index, world) && TablesAgree(contents, index, world) && world > 1
    requires f < |contents| && p in contents[f]
    ensures Listed(index, p)
  {
    OwnerInRange(|contents|, world, f);
    hide Owner, Table;
    var q, n := Owner(|contents|, world, f), |contents|;
    var r := if q == 0 then 1 else 0;
    if !Listed(index, p) {
      HolderEntry(contents, index, world, f, p);
      assert Agree(q, Whole(contents, index, world, q), r, Whole(contents, index, world, r));
      assert p in Whole(contents, index, world, r);
      var last := EntryFrom(contents, index, world, r, n, p);
      assert false;
    }
  }

  // The ranks enter the same tables exactly when there is one rank only, or each listed name is held by the rank its
  // file belongs to and by no later file of another rank, and no file holds a name that is not listed.
  lemma TablesAgreeExactlyWhen(contents: seq<map<string, Tensor>>, index: seq<set<string>>, world: nat)
    requires Inputs(contents, index, world)
    ensures TablesAgree(contents, index, world) <==> world == 1 || IndexServes(contents, index, world)
  {
    hide OneFileEach, IndexServes, Whole, Agree;
    if world == 1 {
      assert Agree(0, Whole(contents, index, 1, 0), 0, Whole(contents, index, 1, 0)) by {
        SameAgrees(0, Whole(contents, index, 1, 0));
      }
    } else if IndexServes(contents, index, world) {
      forall a: nat, b: nat | a < world && b < world
        ensures Agree(a, Whole(contents, index, world, a), b, Whole(contents, index, world, b))
      {
        ServedAgree(contents, index, world, a, b);
      }
    } else if TablesAgree(contents, index, world) {
      AgreeingServe(contents, index, world);
    }
  }

  lemma SameAgrees(a: nat, x: Shard)
    ensures Agree(a, x, a, x)
  {
  }

  // ------------------------------------------------------------------ and the broadcasts

  // Two ranks come equally far through the first members, with the same broadcasts.
  ghost predicate Lockstep(a: nat, x: Shard, b: nat, y: Shard, slots: seq<Slot>, names: map<nat, seq<string>>,
                           upto: nat)
    requires upto <= |slots|
  {
    var r, s := RankAfter(a, slots, names, x, upto), RankAfter(b, slots, names, y, upto);
    r.Ok? == s.Ok? && (r.Ok? ==> SameBroadcasts(r.value.objects, s.value.objects))
  }

  lemma RankRuns(me: nat, slots: seq<Slot>, names: map<nat, seq<string>>, shard: Shard, upto: nat)
    requires Listing(slots) && NameTable(slots, names) && upto <= |slots|
    ensures var out := RankAfter(me, slots, names, shard, upto);
            (out.Ok? <==> forall j :: 0 <= j < upto ==> Available(slots, j, shard))
            && (out.Ok? ==> ObjectsAt(me, Plan(slots, upto), shard, out.value.objects))
  {
    StartAt(me, slots, names, shard);
    assert slots[0..upto] == slots[..upto];
    hide NamesAt, ShardAt, MaterializedAt, ObjectsAt, GivenAt, Listing, SharedStates, Plan, NameTable, VisitAll,
      Available;
    VisitAllCorrect(me, slots, SharedStates(slots), shard, 0, upto, InitialRank(shard, names));
  }

  lemma AgreeingLockstep(a: nat, x: Shard, b: nat, y: Shard, slots: seq<Slot>, names: map<nat, seq<string>>, upto: nat)
    requires Agree(a, x, b, y) && Listing(slots) && NameTable(slots, names) && upto <= |slots|
    ensures Lockstep(a, x, b, y, slots, names, upto)
  {
    RankRuns(a, slots, names, x, upto);
    RankRuns(b, slots, names, y, upto);
    hide RankAfter, Plan, Listing, NameTable, Popped, Fresh;
    forall j | 0 <= j < upto
      ensures Available(slots, j, x) <==> Available(slots, j, y)
    {
    }
  }

  // A module with one parameter of that name tells two tables apart.
  function OneParameter(p: string): seq<Slot> {
    [Slot(p, 0, true, true, false)]
  }

  lemma OneParameterListing(p: string)
    ensures Listing(OneParameter(p)) && NameTable(OneParameter(p), map[0 := [p]])
    ensures Fresh(OneParameter(p), 0) && Popped(OneParameter(p), 0) == p && Plan(OneParameter(p), 1) == [p]
  {
    var slots := OneParameter(p);
    assert slots[1..] == [] && FqnsOf(slots[1..], 0, true) == [];
    assert FqnsOf(slots, 0, true) == [p] && FqnsOf(slots, 0, false) == [];
    assert NamesOf(slots, 0) == [p];
    assert Fresh(slots, 0);
    FreshPopsOwn(slots, 0);
  }

  lemma LockstepAgrees(a: nat, x: Shard, b: nat, y: Shard)
    requires forall p: string :: Lockstep(a, x, b, y, OneParameter(p), map[0 := [p]], 1)
    ensures Agree(a, x, b, y)
  {
    hide Lockstep;
    forall p: string
      ensures p in x <==> p in y
      ensures p in x && p in y ==> Source(a, x[p]) == Source(b, y[p])
    {
      assert Lockstep(a, x, b, y, OneParameter(p), map[0 := [p]], 1);
      LockstepAt(a, x, b, y, p);
    }
  }

  lemma LockstepAt(a: nat, x: Shard, b: nat, y: Shard, p: string)
    requires Lockstep(a, x, b, y, OneParameter(p), map[0 := [p]], 1)
    ensures p in x <==> p in y
    ensures p in x && p in y ==> Source(a, x[p]) == Source(b, y[p])
  {
    OneParameterListing(p);
    RankRuns(a, OneParameter(p), map[0 := [p]], x, 1);
    RankRuns(b, OneParameter(p), map[0 := [p]], y, 1);
    hide RankAfter, Plan, Fresh, Popped, Listing, NameTable;
    assert Available(OneParameter(p), 0, x) <==> p in x;
    assert Available(OneParameter(p), 0, y) <==> p in y;
  }

  ghost predicate AlwaysInLockstep(a: nat, x: Shard, b: nat, y: Shard) {
    forall slots, names, upto: nat :: Listing(slots) && NameTable(slots, names) && upto <= |slots| ==>
      Lockstep(a, x, b, y, slots, names, upto)
  }

  // The ranks stay in lockstep through every module tree exactly then.
  lemma LockstepExactlyWhen(contents: seq<map<string, Tensor>>, index: seq<set<string>>, world: nat)
    requires Inputs(contents, index, world)
    ensures (forall a: nat, b: nat :: a < world && b < world ==>
               AlwaysInLockstep(a, Whole(contents, index, world, a), b, Whole(contents, index, world, b)))
            <==> world == 1 || IndexServes(contents, index, world)
  {
    TablesAgreeExactlyWhen(contents, index, world);
    hide OneFileEach, IndexServes, Whole, AlwaysInLockstep, Agree;
    forall a: nat, b: nat | a < world && b < world
      ensures AlwaysInLockstep(a, Whole(contents, index, world, a), b, Whole(contents, index, world, b)) <==>
              Agree(a, Whole(contents, index, world, a), b, Whole(contents, index, world, b))
    {
      AlwaysAgrees(a, Whole(contents, index, world, a), b, Whole(contents, index, world, b));
    }
  }

  lemma AlwaysAgrees(a: nat, x: Shard, b: nat, y: Shard)
    ensures AlwaysInLockstep(a, x, b, y) <==> Agree(a, x, b, y)
  {
    hide Lockstep, Agree, Listing, NameTable;
    if AlwaysInLockstep(a, x, b, y) {
      forall p: string
        ensures Lockstep(a, x, b, y, OneParameter(p), map[0 := [p]], 1)
      {
        OneParameterListing(p);
        assert |OneParameter(p)| == 1;
      }
      LockstepAgrees(a, x, b, y);
    }
    if Agree(a, x, b, y) {
      forall slots, names, upto: nat | Listing(slots) && NameTable(slots, names) && upto <= |slots|
        ensures Lockstep(a, x, b, y, slots, names, upto)
      {
        AgreeingLockstep(a, x, b, y, slots, names, upto);
      }
    }
  }

  // A name that is held but not listed: the two ranks come to different tables.
  lemma UnlistedDiffers(value: Tensor)
    ensures !TablesAgree([map["w" := value], map[]], [{}, {}], 2)
  {
    var contents: seq<map<string, Tensor>> := [map["w" := value], map[]];
    var index: seq<set<string>> := [{}, {}];
    assert "w" in contents[0] && !Listed(index, "w");
    hide IndexServes;
    TablesAgreeExactlyWhen(contents, index, 2);
    assert !IndexServes(contents, index, 2) by {
      UnlistedUnserved(contents, index, 2, 0, "w");
    }
  }

  lemma UnlistedUnserved(contents: seq<map<string, Tensor>>, index: seq<set<string>>, world: nat, f: nat, p: string)
    requires world > 0 && f < |contents| == |index| && p in contents[f] && !Listed(index, p)
    ensures !IndexServes(contents, index, world)
  {
  }

  // An index that lists under each file what the file holds serves any number of ranks.
  lemma ExactServes(contents: seq<map<string, Tensor>>, index: seq<set<string>>, world: nat)
    requires Inputs(contents, index, world) && IndexExact(contents, index)
    ensures Checkpoint(contents) && IndexServes(contents, index, world)
  {
    hide Owner;
    forall i, j, p | 0 <= i < |contents| && 0 <= j < |contents| && p in contents[i] && p in contents[j]
      ensures i == j
    {
      assert p in index[i] && p in index[j];
    }
    forall i, p | 0 <= i < |index| && p in index[i]
      ensures ListedRight(contents, index, world, i, p)
    {
      assert p in contents[i];
    }
    forall f, p | 0 <= f < |contents| && p in contents[f]
      ensures Listed(index, p)
    {
      assert p in index[f];
    }
  }
}
