/** The names under which a module tree holds its parameters and buffers, the order in which they are visited, and
    the lists of names that are popped on the way. */
module ModuleNames {

  // ------------------------------------------------------------------ the module tree

  // A parameter or buffer of a module; `state` identifies the tensor object, which tied weights share.
  datatype Member = Member(name: string, state: nat, isParam: bool, meta: bool)

  datatype Module = Module(members: seq<Member>, children: seq<Child>)

  datatype Child = Child(name: string, body: Module)

  // The same with its fully qualified name.  `again` tells that the module has the tensor under an earlier name of
  // its own: named_parameters and named_buffers list a tensor once, unless asked for all of its names.
  datatype Slot = Slot(fqn: string, state: nat, isParam: bool, meta: bool, again: bool) {
    predicate Visited() {
      meta && !again
    }
  }

  type Seen = set<(nat, bool)>

  function Qualified(prefix: string, member: Member, seen: Seen): Slot {
    Slot(prefix + member.name, member.state, member.isParam, member.meta, (member.state, member.isParam) in seen)
  }

  function Qualify(prefix: string, members: seq<Member>, seen: Seen): seq<Slot> {
    if members == [] then []
    else [Qualified(prefix, members[0], seen)]
         + Qualify(prefix, members[1..], seen + {(members[0].state, members[0].isParam)})
  }

  // The order in which init_fn meets the members: a module's own, then its children's.
  function Flatten(m: Module, prefix: string): seq<Slot>
    decreases m, 1
  {
    Qualify(prefix, m.members, {}) + FlattenAll(m.children, prefix)
  }

  function FlattenAll(ms: seq<Child>, prefix: string): seq<Slot>
    decreases ms, 0
  {
    if ms == [] then [] else Flatten(ms[0].body, prefix + ms[0].name + ".") + FlattenAll(ms[1..], prefix)
  }

  // state2fqn: for each tensor object its names, parameters first, then buffers.
  function FqnsOf(slots: seq<Slot>, state: nat, isParam: bool): seq<string> {
    if slots == [] then []
    else (if slots[0].state == state && slots[0].isParam == isParam then [slots[0].fqn] else [])
         + FqnsOf(slots[1..], state, isParam)
  }

  function NamesOf(slots: seq<Slot>, state: nat): seq<string> {
    FqnsOf(slots, state, true) + FqnsOf(slots, state, false)
  }

  // ------------------------------------------------------------------ the name tables

  function NameList(listing: seq<Slot>, state: nat): seq<string> {
    if listing == [] then []
    else NameList(listing[..|listing| - 1], state)
         + (if listing[|listing| - 1].state == state then [listing[|listing| - 1].fqn] else [])
  }

  // state2fqn is filled by setdefault and append over one listing of all names.
  method CollectNames(listing: seq<Slot>) returns (names: map<nat, seq<string>>)
    ensures forall s: nat :: (if s in names then names[s] else []) == NameList(listing, s)
  {
    names := map[];
    for i := 0 to |listing|
      invariant forall s: nat :: (if s in names then names[s] else []) == NameList(listing[..i], s)
    {
      assert listing[..i + 1][..i] == listing[..i];
      var s := listing[i].state;
      if s !in names {
        names := names[s := []];
      }
      names := names[s := names[s] + [listing[i].fqn]];
    }
    assert listing[..|listing|] == listing;
  }

  function OfKind(slots: seq<Slot>, isParam: bool): seq<Slot> {
    if slots == [] then []
    else (if slots[0].isParam == isParam then [slots[0]] else []) + OfKind(slots[1..], isParam)
  }

  lemma {:induction false} NameListConcat(a: seq<Slot>, b: seq<Slot>, state: nat)
    ensures NameList(a + b, state) == NameList(a, state) + NameList(b, state)
    decreases |b|
  {
    if b == [] {
      assert a + b == a;
    } else {
      var k := |b| - 1;
      assert (a + b)[..|a + b| - 1] == a + b[..k];
      NameListConcat(a, b[..k], state);
    }
  }

  lemma {:induction false} NameListOfKind(slots: seq<Slot>, state: nat, isParam: bool)
    ensures NameList(OfKind(slots, isParam), state) == FqnsOf(slots, state, isParam)
  {
    if slots != [] {
      NameListOfKind(slots[1..], state, isParam);
      if slots[0].isParam == isParam {
        NameListConcat([slots[0]], OfKind(slots[1..], isParam), state);
        OneName(slots[0], state);
        hide NameList;
      } else {
        assert OfKind(slots, isParam) == OfKind(slots[1..], isParam);
      }
    }
  }

  lemma OneName(slot: Slot, state: nat)
    ensures NameList([slot], state) == if slot.state == state then [slot.fqn] else []
  {
    assert [slot][..0] == [];
  }

  // The listing is named_parameters chained with named_buffers; both follow the module tree.
  lemma CollectedNames(slots: seq<Slot>, state: nat)
    ensures NameList(OfKind(slots, true) + OfKind(slots, false), state) == NamesOf(slots, state)
  {
    NameListConcat(OfKind(slots, true), OfKind(slots, false), state);
    NameListOfKind(slots, state, true);
    NameListOfKind(slots, state, false);
  }

  // Names that are one tensor object are all parameters or all buffers, and all on meta or none.
  ghost predicate KindConsistent(slots: seq<Slot>) {
    forall i, j :: 0 <= i < |slots| && 0 <= j < |slots| && slots[i].state == slots[j].state
                   ==> slots[i].isParam == slots[j].isParam && slots[i].meta == slots[j].meta
  }

  ghost predicate DistinctNames(slots: seq<Slot>) {
    forall i, j :: 0 <= i < j < |slots| ==> slots[i].fqn != slots[j].fqn
  }

  // A tensor listed again has been listed before.
  ghost predicate AgainFollows(slots: seq<Slot>) {
    forall i :: 0 <= i < |slots| && slots[i].again ==> Occurs(slots, i, slots[i].state)
  }

  ghost predicate Occurs(slots: seq<Slot>, i: nat, state: nat)
    requires i <= |slots|
  {
    exists j :: 0 <= j < i && slots[j].state == state
  }

  // What the lemmas about a listing of names take for granted.
  ghost predicate Listing(slots: seq<Slot>) {
    KindConsistent(slots) && DistinctNames(slots) && AgainFollows(slots)
  }

  // No module holds one tensor on meta under two of its own names.
  ghost predicate NoDoubles(m: Module)
    decreases m, 1
  {
    && (forall i, j :: 0 <= i < j < |m.members| && m.members[j].meta && m.members[i].state == m.members[j].state ==>
          m.members[i].isParam != m.members[j].isParam)
    && NoDoublesBelow(m.children)
  }

  ghost predicate NoDoublesBelow(ms: seq<Child>)
    decreases ms, 0
  {
    ms == [] || (NoDoubles(ms[0].body) && NoDoublesBelow(ms[1..]))
  }

  ghost predicate AllVisited(slots: seq<Slot>) {
    forall i :: 0 <= i < |slots| && slots[i].meta ==> !slots[i].again
  }

  // An earlier member is the same tensor, of the same kind.
  ghost predicate HeldBefore(members: seq<Member>, j: nat)
    requires j < |members|
  {
    exists i :: 0 <= i < j && members[i].state == members[j].state && members[i].isParam == members[j].isParam
  }

  lemma HeldBeforeRest(members: seq<Member>, j: nat)
    requires 0 < j < |members|
    ensures HeldBefore(members, j) <==>
            (members[0].state == members[j].state && members[0].isParam == members[j].isParam)
            || HeldBefore(members[1..], j - 1)
  {
    var rest := members[1..];
    if i :| 0 < i < j && members[i].state == members[j].state && members[i].isParam == members[j].isParam {
      assert rest[i - 1] == members[i];
    }
    if i :| 0 <= i < j - 1 && rest[i].state == members[j].state && rest[i].isParam == members[j].isParam {
      assert rest[i] == members[i + 1];
    }
  }

  lemma {:induction false} QualifyAgain(prefix: string, members: seq<Member>, seen: Seen, j: nat)
    requires j < |members|
    ensures |Qualify(prefix, members, seen)| == |members|
    ensures var slot := Qualify(prefix, members, seen)[j];
            && slot.fqn == prefix + members[j].name && slot.isParam == members[j].isParam
            && slot.state == members[j].state && slot.meta == members[j].meta
            && (slot.again <==> (members[j].state, members[j].isParam) in seen || HeldBefore(members, j))
  {
    var rest, now := members[1..], seen + {(members[0].state, members[0].isParam)};
    QualifySize(prefix, members, seen);
    if j > 0 {
      QualifyAgain(prefix, rest, now, j - 1);
      HeldBeforeRest(members, j);
      hide HeldBefore;
      assert Qualify(prefix, members, seen)[j] == Qualify(prefix, rest, now)[j - 1];
    }
  }

  lemma {:induction false} QualifySize(prefix: string, members: seq<Member>, seen: Seen)
    ensures |Qualify(prefix, members, seen)| == |members|
  {
    if members != [] {
      QualifySize(prefix, members[1..], seen + {(members[0].state, members[0].isParam)});
    }
  }

  lemma {:induction false} AgainConcat(a: seq<Slot>, b: seq<Slot>)
    requires AgainFollows(a) && AgainFollows(b)
    ensures AgainFollows(a + b) && (AllVisited(a + b) <==> AllVisited(a) && AllVisited(b))
  {
    forall i | 0 <= i < |a + b| && (a + b)[i].again
      ensures Occurs(a + b, i, (a + b)[i].state)
    {
      if i < |a| {
        var j :| 0 <= j < i && a[j].state == a[i].state;
        assert (a + b)[j].state == (a + b)[i].state;
      } else {
        assert b[i - |a|].again;
        var j :| 0 <= j < i - |a| && b[j].state == b[i - |a|].state;
        assert (a + b)[|a| + j].state == (a + b)[i].state;
      }
    }
    if AllVisited(a + b) {
      assert forall i :: 0 <= i < |a| ==> a[i] == (a + b)[i];
      assert forall i :: 0 <= i < |b| ==> b[i] == (a + b)[|a| + i];
    }
  }

  // Which names of a module tree are visited: all, exactly when no module has a double.
  lemma {:induction false} FlattenVisited(m: Module, prefix: string)
    ensures AgainFollows(Flatten(m, prefix))
    ensures AllVisited(Flatten(m, prefix)) <==> NoDoubles(m)
    decreases m, 1
  {
    var own := Qualify(prefix, m.members, {});
    OwnVisited(m, prefix);
    FlattenAllVisited(m.children, prefix);
    AgainConcat(own, FlattenAll(m.children, prefix));
    hide Qualify, FlattenAll, NoDoublesBelow, AllVisited;
  }

  // The module's own members.
  lemma OwnVisited(m: Module, prefix: string)
    ensures AgainFollows(Qualify(prefix, m.members, {}))
    ensures AllVisited(Qualify(prefix, m.members, {})) <==>
            forall i, j :: 0 <= i < j < |m.members| && m.members[j].meta && m.members[i].state == m.members[j].state ==>
              m.members[i].isParam != m.members[j].isParam
  {
    var own := Qualify(prefix, m.members, {});
    QualifySize(prefix, m.members, {});
    forall j | 0 <= j < |own|
      ensures own[j].meta == m.members[j].meta && (own[j].again <==> HeldBefore(m.members, j))
      ensures own[j].again ==> Occurs(own, j, own[j].state)
    {
      QualifyAgain(prefix, m.members, {}, j);
      if HeldBefore(m.members, j) {
        var i :| 0 <= i < j && m.members[i].state == m.members[j].state && m.members[i].isParam == m.members[j].isParam;
        QualifyAgain(prefix, m.members, {}, i);
        assert own[i].state == own[j].state;
      }
    }
    hide Qualify, Occurs;
    assert AllVisited(own) <==> forall j :: 0 <= j < |own| && m.members[j].meta ==> !HeldBefore(m.members, j);
  }

  lemma {:induction false} FlattenAllVisited(ms: seq<Child>, prefix: string)
    ensures AgainFollows(FlattenAll(ms, prefix))
    ensures AllVisited(FlattenAll(ms, prefix)) <==> NoDoublesBelow(ms)
    decreases ms, 0
  {
    if ms != [] {
      FlattenVisited(ms[0].body, prefix + ms[0].name + ".");
      FlattenAllVisited(ms[1..], prefix);
      AgainConcat(Flatten(ms[0].body, prefix + ms[0].name + "."), FlattenAll(ms[1..], prefix));
    }
  }

  // ------------------------------------------------------------------ names and order, from the tree

  // The child positions on the way from the root to a module.
  type Way = seq<nat>

  predicate Leads(m: Module, way: Way)
    decreases |way|
  {
    way == [] || (way[0] < |m.children| && Leads(m.children[way[0]].body, way[1..]))
  }

  function Reached(m: Module, way: Way): Module
    requires Leads(m, way)
    decreases |way|
  {
    if way == [] then m else Reached(m.children[way[0]].body, way[1..])
  }

  // The names of the children on the way.
  function Passed(m: Module, way: Way): seq<string>
    requires Leads(m, way)
    decreases |way|
  {
    if way == [] then [] else [m.children[way[0]].name] + Passed(m.children[way[0]].body, way[1..])
  }

  function Dotted(names: seq<string>, last: string): string {
    if names == [] then last else names[0] + "." + Dotted(names[1..], last)
  }

  lemma DottedBelow(prefix: string, name: string, names: seq<string>, last: string)
    ensures prefix + name + "." + Dotted(names, last) == prefix + Dotted([name] + names, last)
  {
    assert ([name] + names)[1..] == names;
    assert prefix + (name + "." + Dotted(names, last)) == prefix + name + "." + Dotted(names, last);
  }

  function Size(m: Module): nat
    decreases m, 1
  {
    |m.members| + SizeAll(m.children)
  }

  function SizeAll(ms: seq<Child>): nat
    decreases ms, 0
  {
    if ms == [] then 0 else Size(ms[0].body) + SizeAll(ms[1..])
  }

  // How many members are met before the module's own: those of every module on the way, and all that lies in
  // earlier children.
  function Start(m: Module, way: Way): nat
    requires Leads(m, way)
    decreases |way|
  {
    if way == [] then 0
    else |m.members| + SizeAll(m.children[..way[0]]) + Start(m.children[way[0]].body, way[1..])
  }

  lemma {:induction false} FlattenSize(m: Module, prefix: string)
    ensures |Flatten(m, prefix)| == Size(m)
    decreases m, 1
  {
    QualifySize(prefix, m.members, {});
    FlattenAllSize(m.children, prefix);
  }

  lemma {:induction false} FlattenAllSize(ms: seq<Child>, prefix: string)
    ensures |FlattenAll(ms, prefix)| == SizeAll(ms)
    decreases ms, 0
  {
    if ms != [] {
      FlattenSize(ms[0].body, prefix + ms[0].name + ".");
      FlattenAllSize(ms[1..], prefix);
    }
  }

  lemma {:induction false} ChildSlots(ms: seq<Child>, prefix: string, c: nat, i: nat)
    requires c < |ms| && i < Size(ms[c].body)
    ensures |Flatten(ms[c].body, prefix + ms[c].name + ".")| == Size(ms[c].body)
    ensures SizeAll(ms[..c]) + i < |FlattenAll(ms, prefix)|
    ensures FlattenAll(ms, prefix)[SizeAll(ms[..c]) + i] == Flatten(ms[c].body, prefix + ms[c].name + ".")[i]
    decreases c
  {
    FlattenSize(ms[0].body, prefix + ms[0].name + ".");
    FlattenAllSize(ms[1..], prefix);
    if c > 0 {
      ChildSlots(ms[1..], prefix, c - 1, i);
      assert ms[..c][0] == ms[0] && ms[..c][1..] == ms[1..][..c - 1];
    }
  }

  // The j-th member of the module at the end of a way: its name is the names on the way and its own, with dots
  // between, and it comes after all that precedes it in the tree.
  lemma {:induction false} SlotOf(m: Module, prefix: string, way: Way, j: nat)
    requires Leads(m, way) && j < |Reached(m, way).members|
    ensures Start(m, way) + j < |Flatten(m, prefix)| == Size(m)
    ensures var slot, own := Flatten(m, prefix)[Start(m, way) + j], Reached(m, way).members;
            && slot.fqn == prefix + Dotted(Passed(m, way), own[j].name)
            && slot.state == own[j].state && slot.isParam == own[j].isParam && slot.meta == own[j].meta
            && (slot.again <==> HeldBefore(own, j))
    decreases |way|
  {
    hide HeldBefore, Size;
    FlattenSize(m, prefix);
    QualifySize(prefix, m.members, {});
    if way == [] {
      QualifyAgain(prefix, m.members, {}, j);
    } else {
      hide Qualify, FlattenAll, SizeAll, Dotted;
      var child, rest := m.children[way[0]], way[1..];
      SlotOf(child.body, prefix + child.name + ".", rest, j);
      ChildSlots(m.children, prefix, way[0], Start(child.body, rest) + j);
      var names, last := Passed(child.body, rest), Reached(m, way).members[j].name;
      DottedBelow(prefix, child.name, names, last);
    }
  }

  lemma {:induction false} ChildAt(ms: seq<Child>, i: nat) returns (c: nat, k: nat)
    requires i < SizeAll(ms)
    ensures c < |ms| && k < Size(ms[c].body) && i == SizeAll(ms[..c]) + k
    decreases |ms|
  {
    if i < Size(ms[0].body) {
      c, k := 0, i;
    } else {
      c, k := ChildAt(ms[1..], i - Size(ms[0].body));
      c := c + 1;
      assert ms[..c][0] == ms[0] && ms[..c][1..] == ms[1..][..c - 1];
    }
  }

  // And every slot is one of these.
  lemma {:induction false} WayOf(m: Module, i: nat) returns (way: Way, j: nat)
    requires i < Size(m)
    ensures Leads(m, way) && j < |Reached(m, way).members| && i == Start(m, way) + j
    decreases m
  {
    if i < |m.members| {
      way, j := [], i;
    } else {
      var c, k := ChildAt(m.children, i - |m.members|);
      var rest;
      rest, j := WayOf(m.children[c].body, k);
      way := [c] + rest;
      assert way[1..] == rest;
    }
  }

  // A module comes before the modules below it, and a child with all below it before the next child.
  predicate Before(a: Way, b: Way)
    decreases |b|
  {
    b != [] && (a == [] || a[0] < b[0] || (a[0] == b[0] && Before(a[1..], b[1..])))
  }

  lemma {:induction false} VisitedBefore(m: Module, a: Way, j: nat, b: Way, k: nat)
    requires Leads(m, a) && Leads(m, b) && Before(a, b)
    requires j < |Reached(m, a).members| && k < |Reached(m, b).members|
    ensures Start(m, a) + j < Start(m, b) + k
    decreases |b|
  {
    if a != [] {
      SlotOf(m.children[a[0]].body, "", a[1..], j);
      if a[0] == b[0] {
        VisitedBefore(m.children[a[0]].body, a[1..], j, b[1..], k);
      } else {
        SizesBefore(m.children, a[0], b[0]);
      }
    }
  }

  lemma {:induction false} SizesBefore(ms: seq<Child>, c: nat, d: nat)
    requires c < d <= |ms|
    ensures SizeAll(ms[..c]) + Size(ms[c].body) <= SizeAll(ms[..d])
    decreases c
  {
    assert ms[..d][0] == ms[0] && ms[..d][1..] == ms[1..][..d - 1];
    if c > 0 {
      assert ms[..c][0] == ms[0] && ms[..c][1..] == ms[1..][..c - 1];
      SizesBefore(ms[1..], c - 1, d - 1);
    }
  }

  // ------------------------------------------------------------------ which names are popped

  lemma {:induction false} NoFqns(slots: seq<Slot>, state: nat, isParam: bool)
    requires forall i :: 0 <= i < |slots| && slots[i].state == state ==> slots[i].isParam != isParam
    ensures FqnsOf(slots, state, isParam) == []
  {
    if slots != [] {
      NoFqns(slots[1..], state, isParam);
    }
  }

  // With one kind per tensor the lists are in the order of the module tree, although they were filled with all
  // parameters first.
  lemma {:induction false} NamesInOrder(slots: seq<Slot>, state: nat)
    requires KindConsistent(slots)
    ensures NamesOf(slots, state) == NameList(slots, state)
  {
    if slots != [] {
      var rest := slots[1..];
      NamesInOrder(rest, state);
      NameListConcat([slots[0]], rest, state);
      OneName(slots[0], state);
      assert slots == [slots[0]] + rest;
      if slots[0].state == state && !slots[0].isParam {
        NoFqns(rest, state, true);
      }
      hide NameList;
    }
  }

  lemma {:induction false} NamePrefix(slots: seq<Slot>, i: nat, n: nat, state: nat)
    requires i <= n <= |slots|
    ensures NameList(slots[..i], state) <= NameList(slots[..n], state)
    decreases n - i
  {
    if i < n {
      NamePrefix(slots, i, n - 1, state);
      assert slots[..n][..n - 1] == slots[..n - 1];
    }
  }

  lemma {:induction false} NamesAreFqns(slots: seq<Slot>, n: nat, state: nat, a: nat) returns (j: nat)
    requires n <= |slots| && a < |NameList(slots[..n], state)|
    ensures j < n && slots[j].state == state && slots[j].fqn == NameList(slots[..n], state)[a]
  {
    assert n > 0;
    assert slots[..n][..n - 1] == slots[..n - 1];
    if a < |NameList(slots[..n - 1], state)| {
      j := NamesAreFqns(slots, n - 1, state, a);
    } else {
      j := n - 1;
    }
  }

  lemma {:induction false} NamesDistinct(slots: seq<Slot>, n: nat, state: nat, a: nat, b: nat)
    requires DistinctNames(slots) && n <= |slots| && a < b < |NameList(slots[..n], state)|
    ensures NameList(slots[..n], state)[a] != NameList(slots[..n], state)[b]
  {
    assert n > 0;
    assert slots[..n][..n - 1] == slots[..n - 1];
    if b < |NameList(slots[..n - 1], state)| {
      NamesDistinct(slots, n - 1, state, a, b);
    } else {
      var j := NamesAreFqns(slots, n - 1, state, a);
    }
  }

  // A tensor's own name for slot i is the one after those of the slots before.
  lemma OwnName(slots: seq<Slot>, i: nat)
    requires i < |slots|
    ensures var state := slots[i].state;
            |NameList(slots[..i], state)| < |NameList(slots, state)|
            && NameList(slots, state)[|NameList(slots[..i], state)|] == slots[i].fqn
  {
    assert slots[..i + 1][..i] == slots[..i];
    NamePrefix(slots, i + 1, |slots|, slots[i].state);
    assert slots[..|slots|] == slots;
  }

  // How many names of a tensor have been popped before slot i.
  function Pops(slots: seq<Slot>, i: nat, state: nat): nat
    requires i <= |slots|
  {
    if i == 0 then 0
    else Pops(slots, i - 1, state) + (if slots[i - 1].state == state && slots[i - 1].Visited() then 1 else 0)
  }

  lemma {:induction false} PopsWithin(slots: seq<Slot>, i: nat, state: nat)
    requires i <= |slots|
    ensures Pops(slots, i, state) <= |NameList(slots[..i], state)|
    ensures Pops(slots, i, state) == |NameList(slots[..i], state)| <==>
            forall j :: 0 <= j < i && slots[j].state == state ==> slots[j].Visited()
  {
    if i > 0 {
      PopsWithin(slots, i - 1, state);
      assert slots[..i][..i - 1] == slots[..i - 1];
    }
  }

  lemma {:induction false} PopsGrow(slots: seq<Slot>, i: nat, j: nat, state: nat)
    requires i < j <= |slots| && slots[i].Visited() && slots[i].state == state
    ensures Pops(slots, i, state) < Pops(slots, j, state)
    decreases j - i
  {
    if i + 1 < j {
      PopsGrow(slots, i, j - 1, state);
    }
  }

  // The name that is popped when slot i is visited.
  function Popped(slots: seq<Slot>, i: nat): string
    requires i < |slots|
  {
    PopsWithin(slots, i, slots[i].state);
    OwnName(slots, i);
    NameList(slots, slots[i].state)[Pops(slots, i, slots[i].state)]
  }

  // It is the slot's own name exactly when all earlier names of the tensor have been visited.
  lemma PoppedIsOwn(slots: seq<Slot>, i: nat)
    requires DistinctNames(slots) && i < |slots|
    ensures Popped(slots, i) == slots[i].fqn <==>
            forall j :: 0 <= j < i && slots[j].state == slots[i].state ==> slots[j].Visited()
  {
    var state := slots[i].state;
    PopsWithin(slots, i, state);
    OwnName(slots, i);
    assert slots[..|slots|] == slots;
    if Pops(slots, i, state) < |NameList(slots[..i], state)| {
      NamesDistinct(slots, |slots|, state, Pops(slots, i, state), |NameList(slots[..i], state)|);
    }
  }

  // No name is popped twice.
  lemma PoppedOnce(slots: seq<Slot>, i: nat, j: nat)
    requires DistinctNames(slots) && i < j < |slots| && slots[i].Visited() && slots[j].Visited()
    ensures Popped(slots, i) != Popped(slots, j)
  {
    var a, b := slots[i].state, slots[j].state;
    PoppedListed(slots, i);
    PoppedListed(slots, j);
    assert slots[..|slots|] == slots;
    if a == b {
      PopsGrow(slots, i, j, a);
      hide Popped, NameList, Pops;
      NamesDistinct(slots, |slots|, a, Pops(slots, i, a), Pops(slots, j, a));
    } else {
      hide Popped, NameList, Pops;
      var x := NamesAreFqns(slots, |slots|, a, Pops(slots, i, a));
      var y := NamesAreFqns(slots, |slots|, b, Pops(slots, j, b));
    }
  }

  lemma PoppedListed(slots: seq<Slot>, i: nat)
    requires i < |slots|
    ensures var names, k := NameList(slots, slots[i].state), Pops(slots, i, slots[i].state);
            k < |names| && Popped(slots, i) == names[k]
  {
    PopsWithin(slots, i, slots[i].state);
    OwnName(slots, i);
  }

  function PoppedBefore(slots: seq<Slot>, i: nat): set<string>
    requires i <= |slots|
  {
    if i == 0 then {}
    else PoppedBefore(slots, i - 1) + (if slots[i - 1].Visited() then {Popped(slots, i - 1)} else {})
  }

  lemma {:induction false} NotPoppedYet(slots: seq<Slot>, n: nat, i: nat)
    requires DistinctNames(slots) && n <= i < |slots| && slots[i].Visited()
    ensures Popped(slots, i) !in PoppedBefore(slots, n)
  {
    if n > 0 {
      NotPoppedYet(slots, n - 1, i);
      if slots[n - 1].Visited() {
        PoppedOnce(slots, n - 1, i);
      }
    }
  }

  // ------------------------------------------------------------------ an example

  // A module with one tensor under two names, and another module with the same tensor: the second name is skipped,
  // stays on meta, and is popped in place of the third.
  const TWICE := Module([Member("a", 0, true, true), Member("b", 0, true, true)],
                        [Child("c", Module([Member("d", 0, true, true)], []))])

  const TWICE_NAMES := [Slot("a", 0, true, true, false), Slot("b", 0, true, true, true), Slot("c.d", 0, true, true,
      false)]

  lemma SecondNameSkipped()
    ensures Flatten(TWICE, "") == TWICE_NAMES && Listing(TWICE_NAMES) && !NoDoubles(TWICE)
    ensures !TWICE_NAMES[1].Visited() && TWICE_NAMES[2].Visited()
    ensures Popped(TWICE_NAMES, 2) == TWICE_NAMES[1].fqn
  {
    TwiceFlat();
    assert TWICE.members[1].meta && TWICE.members[0].state == TWICE.members[1].state;
    assert TWICE_NAMES[0].state == 0 && Occurs(TWICE_NAMES, 1, 0);
    TwiceNames();
    TwicePops();
    hide NameList, Pops;
    assert Popped(TWICE_NAMES, 2) == NameList(TWICE_NAMES, 0)[Pops(TWICE_NAMES, 2, 0)];
  }

  lemma TwiceNames()
    ensures NameList(TWICE_NAMES, 0) == ["a", "b", "c.d"]
  {
    var a, b, d := TWICE_NAMES[0], TWICE_NAMES[1], TWICE_NAMES[2];
    OneName(a, 0);
    OneName(b, 0);
    OneName(d, 0);
    NameListConcat([a], [b], 0);
    NameListConcat([a] + [b], [d], 0);
    hide NameList;
    assert TWICE_NAMES == [a] + [b] + [d];
  }

  lemma TwicePops()
    ensures Pops(TWICE_NAMES, 2, 0) == 1
  {
    assert Pops(TWICE_NAMES, 0, 0) == 0 && Pops(TWICE_NAMES, 1, 0) == 1;
  }

  lemma TwiceFlat()
    ensures Flatten(TWICE, "") == TWICE_NAMES
  {
    var d := Member("d", 0, true, true);
    var c := Module([d], []);
    var members := TWICE.members;
    OneMember("c.", d, {});
    assert Flatten(c, "c.") == [Slot("c.d", 0, true, true, false)] by {
      assert "c." + "d" == "c.d" && FlattenAll([], "c.") == [];
    }
    assert FlattenAll(TWICE.children, "") == Flatten(c, "c.") by {
      assert "" + "c" + "." == "c." && TWICE.children[1..] == [] && FlattenAll([], "") == [];
    }
    assert members[1..] == [members[1]];
    OneMember("", members[1], {(0, true)});
    assert Qualify("", members, {}) == [Slot("a", 0, true, true, false), Slot("b", 0, true, true, true)] by {
      assert "" + "a" == "a" && "" + "b" == "b" && {} + {(0, true)} == {(0, true)};
    }
  }

  lemma OneMember(prefix: string, member: Member, seen: Seen)
    ensures Qualify(prefix, [member], seen) == [Qualified(prefix, member, seen)]
  {
    assert [member][1..] == [];
  }
}
