/** The same dictionaries as objects that are shared and updated in place. */
module ConfigObjects {
  import opened Wrappers
  import opened ConfigMerge
  import opened ConfigOverrides

  datatype Entry = Plain(scalar: Scalar) | Ref(dict: DictObject)

  ghost function Footprint(e: Entry): set<DictObject>
    reads if e.Ref? then {e.dict} else {}
  {
    if e.Ref? then e.dict.Repr else {}
  }

  ghost predicate Inside(e: Entry, s: set<DictObject>)
    reads if e.Ref? then {e.dict} else {}
  {
    e.Ref? ==> e.dict in s && e.dict.Repr <= s
  }

  ghost function Shown(e: Entry): Value
    reads if e.Ref? then {e.dict} else {}
  {
    match e
    case Plain(s) => Leaf(s)
    case Ref(d) => Dict(d.Contents)
  }

  ghost predicate ValidEntry(e: Entry)
    reads if e.Ref? then {e.dict} + e.dict.Repr else {}
    decreases Footprint(e), 2
  {
    e.Ref? ==> e.dict.Valid()
  }

  class DictObject {
    var entries: map<string, Entry>
    ghost var Contents: Config
    ghost var Repr: set<DictObject>

    // The entry at k: inside this object's footprint, valid, and shown in Contents.
    ghost predicate Held(k: string)
      reads this, Repr
      decreases Repr, 3
    {
      && this in Repr && k in entries && k in Contents
      && match entries[k] {
           case Plain(s) => Contents[k] == Leaf(s)
           case Ref(d) => d in Repr && d in d.Repr && d.Repr <= Repr - {this} && d.Valid()
             && Contents[k] == Dict(d.Contents)
         }
    }

    ghost predicate Apart(k: string, l: string)
      reads this, Repr
    {
      (k in entries && l in entries && entries[k].Ref? && entries[l].Ref?
       && entries[k].dict in Repr && entries[l].dict in Repr) ==> entries[k].dict.Repr !! entries[l].dict.Repr
    }

    // Every nested dictionary is held in one place only, and Contents is what a reader sees.
    ghost predicate Valid()
      reads this, Repr
      decreases Repr, 4
    {
      && this in Repr
      && entries.Keys == Contents.Keys
      && (forall k <- entries.Keys :: Held(k))
      && (forall k <- entries.Keys, l <- entries.Keys :: k != l ==> Apart(k, l))
    }

    // Valid, except for what is recorded about key.
    ghost predicate ValidBut(key: string)
      reads this, Repr
    {
      && this in Repr
      && entries.Keys + {key} == Contents.Keys + {key}
      && (forall k <- entries.Keys :: k != key ==> Held(k))
      && (forall k <- entries.Keys, l <- entries.Keys :: k != l && k != key && l != key ==> Apart(k, l))
    }

    // Brings the ghost fields up to date after the entry at key has changed.
    ghost method Record(key: string)
      requires key in entries && ValidBut(key)
      requires ValidEntry(entries[key]) && this !in Footprint(entries[key])
      requires forall k <- entries.Keys :: k != key && entries[k].Ref? ==>
                 entries[k].dict.Repr !! Footprint(entries[key])
      modifies this`Contents, this`Repr
      ensures Valid()
      ensures Contents == old(Contents)[key := Shown(entries[key])]
      ensures Repr == old(Repr) + Footprint(entries[key])
    {
      Contents := Contents[key := Shown(entries[key])];
      Repr := Repr + Footprint(entries[key]);
      forall k | k in entries.Keys ensures Held(k) {
      }
      forall k, l | k in entries.Keys && l in entries.Keys && k != l ensures Apart(k, l) {
        assert k != key && l != key ==> old(Apart(k, l));
      }
    }

    constructor ()
      ensures Valid() && Contents == map[] && fresh(Repr) && entries == map[]
    {
      entries := map[];
      Contents := map[];
      Repr := {this};
    }

    // What Valid says about a nested dictionary.
    lemma Nested(key: string)
      requires Valid() && key in entries && entries[key].Ref?
      ensures var d := entries[key].dict;
              d in Repr && d in d.Repr && d.Repr <= Repr - {this} && d.Valid() && Contents[key] == Dict(d.Contents)
      ensures forall k <- entries.Keys :: k != key && entries[k].Ref? ==> entries[k].dict.Repr !! entries[key].dict.Repr
    {
      assert Held(key);
      forall k | k in entries && k != key && entries[k].Ref? ensures entries[k].dict.Repr !! entries[key].dict.Repr {
        assert Held(k) && Apart(k, key);
      }
    }

    // Contents tells a nested dictionary from a plain value.
    lemma Shape(key: string)
      requires Valid() && key in entries
      ensures key in Contents && Contents[key] == Shown(entries[key])
    {
      assert Held(key);
    }

    lemma Children()
      requires Valid()
      ensures this in Repr && forall k <- entries.Keys :: entries[k].Ref? ==> entries[k].dict in Repr - {this}
    {
      forall k | k in entries.Keys && entries[k].Ref? ensures entries[k].dict in Repr - {this} {
        Nested(k);
      }
    }

    lemma Outside(e: Entry)
      requires Valid() && Footprint(e) !! Repr
      ensures this !in Footprint(e)
      ensures forall k <- entries.Keys :: entries[k].Ref? ==> entries[k].dict.Repr !! Footprint(e)
    {
      forall k | k in entries.Keys && entries[k].Ref? ensures entries[k].dict.Repr !! Footprint(e) {
        assert Held(k);
      }
    }

    // Updating another entry leaves this one as it was.
    twostate lemma HeldKept(k: string)
      requires old(Held(k)) && this in Repr && k in entries && entries[k] == old(entries[k])
      requires Repr == old(Repr) && k in Contents && Contents[k] == old(Contents[k])
      requires entries[k].Ref? ==> forall d <- old(entries[k].dict.Repr) :: unchanged(d)
      ensures Held(k)
    {
    }

    // d[key] = e
    method Put(key: string, e: Entry)
      requires Valid() && ValidEntry(e) && this !in Footprint(e)
      requires forall k <- entries.Keys :: k != key && entries[k].Ref? ==> entries[k].dict.Repr !! Footprint(e)
      modifies this
      ensures Valid() && entries == old(entries)[key := e]
      ensures Contents == old(Contents)[key := Shown(e)] && Repr == old(Repr) + Footprint(e)
    {
      entries := entries[key := e];
      forall k | k in entries.Keys && k != key ensures Held(k) {
        HeldKept(k);
      }
      forall k, l | k in entries.Keys && l in entries.Keys && k != l && k != key && l != key ensures Apart(k, l) {
        assert old(Apart(k, l));
      }
      Record(key);
    }

    // d.setdefault(key, e)
    method SetDefault(key: string, e: Entry) returns (r: Entry)
      requires Valid() && ValidEntry(e) && Footprint(e) !! Repr
      modifies this
      ensures Valid() && key in entries && entries[key] == r && Contents[key] == Shown(r)
      ensures Contents == if key in old(Contents) then old(Contents) else old(Contents)[key := Shown(e)]
      ensures entries == if key in old(Contents) then old(entries) else old(entries)[key := e]
      ensures Repr == if key in old(Contents) then old(Repr) else old(Repr) + Footprint(e)
    {
      if key !in entries {
        Outside(e);
        Put(key, e);
      }
      r := entries[key];
      assert Held(key);
    }

    // d[k] = e for the last name of the path, after walking there with setdefault. After the recursive call only
    // ghost fields are updated, so the recursion is the loop that moves d one level down.
    method SetPath(p: Path, e: Entry) returns (ok: bool)
      requires Valid() && p != []
      requires ValidEntry(e) && Footprint(e) !! Repr
      modifies Repr
      ensures Valid() && ValidEntry(e)
      ensures ok == Insert(old(Contents), p, Shown(e)).Some?
      ensures Contents == if ok then Insert(old(Contents), p, Shown(e)).value else old(Contents)
      ensures Shown(e) == old(Shown(e)) && Footprint(e) == old(Footprint(e))
      ensures fresh(Repr - old(Repr) - Footprint(e))
      decreases |p|, 0
    {
      hide DictObject.Valid;
      Children();
      if e.Ref? { e.dict.Children(); }
      var key := p[0];
      if |p| == 1 {
        Outside(e);
        Put(key, e);
        return true;
      }
      InsertIntoEmpty(p[1..], Shown(e));
      var empty := new DictObject();
      var next := SetDefault(key, Ref(empty));
      match next {
        case Plain(_) => ok := false;
        case Ref(child) =>
          ok := SetBelow(key, child, p[1..], e);
      }
    }

    method SetBelow(key: string, child: DictObject, p: Path, e: Entry) returns (ok: bool)
      requires Valid() && p != [] && key in entries && entries[key] == Ref(child)
      requires ValidEntry(e) && Footprint(e) !! Repr
      modifies Repr
      ensures Valid() && ValidEntry(e)
      ensures ok == Insert(old(child.Contents), p, Shown(e)).Some?
      ensures ok ==> Contents == old(Contents)[key := Dict(Insert(old(child.Contents), p, Shown(e)).value)]
      ensures !ok ==> Contents == old(Contents)
      ensures Shown(e) == old(Shown(e)) && Footprint(e) == old(Footprint(e))
      ensures fresh(Repr - old(Repr) - Footprint(e))
      decreases |p|, 1
    {
      Nested(key);
      ok := child.SetPath(p, e);
      forall k | k in entries.Keys && k != key ensures Held(k) && Footprint(entries[k]) == old(Footprint(entries[k])) {
        HeldKept(k);
      }
      forall k, l | k in entries.Keys && l in entries.Keys && k != l && k != key && l != key ensures Apart(k, l) {
        assert old(Apart(k, l));
      }
      Record(key);
    }

    // d[key].setdefault(name, v) for a plain value v.
    method SetDefaultBelow(key: string, name: string, v: Scalar)
      requires Valid() && key in entries && entries[key].Ref?
      modifies this`Contents, this`Repr, entries[key].dict
      ensures Valid() && entries == old(entries) && Repr == old(Repr)
      ensures Contents == old(Contents)[key := Dict(WithDefault(old(entries[key].dict.Contents), name, v))]
      ensures var child := entries[key].dict;
              child.Valid() && child.Repr == old(child.Repr)
              && child.Contents == WithDefault(old(child.Contents), name, v)
    {
      Nested(key);
      var child := entries[key].dict;
      var _ := child.SetDefault(name, Plain(v));
      forall k | k in entries.Keys && k != key ensures Held(k) && Footprint(entries[k]) == old(Footprint(entries[k])) {
        HeldKept(k);
      }
      forall k, l | k in entries.Keys && l in entries.Keys && k != l && k != key && l != key ensures Apart(k, l) {
        assert old(Apart(k, l));
      }
      Record(key);
    }
  }

  lemma InsertIntoEmpty(p: Path, v: Value)
    requires p != []
    ensures Insert(map[], p, v).Some?
  {
    InsertExactlyWhen(map[], p, v);
  }

  function WithDefault(c: Config, name: string, v: Scalar): Config {
    if name in c then c else c[name := Leaf(v)]
  }

  // ------------------------------------------------------------------ deep merge

  ghost function HeldAt(o: DictObject, k: string): set<DictObject>
    reads o, if k in o.entries && o.entries[k].Ref? then {o.entries[k].dict} else {}
  {
    if k in o.entries then Footprint(o.entries[k]) else {}
  }

  // One layer as seen from the key k.
  datatype Layer = Layer(entries: map<string, Entry>, contents: Config, repr: set<DictObject>, held: set<DictObject>)

  ghost function LayerAt(o: DictObject, k: string): Layer
    reads o, if k in o.entries && o.entries[k].Ref? then {o.entries[k].dict} else {}
  {
    Layer(o.entries, o.Contents, o.Repr, HeldAt(o, k))
  }

  datatype Slot = Slot(entry: Entry, value: Value, held: set<DictObject>)

  ghost function SlotAt(o: DictObject, k: string): Slot
    requires k in o.entries && k in o.Contents
    reads o, if k in o.entries && o.entries[k].Ref? then {o.entries[k].dict} else {}
  {
    Slot(o.entries[k], o.Contents[k], Footprint(o.entries[k]))
  }

  // An entry that holds objects of a layer holds only those the layer has at the same key.
  ghost predicate OnlyFrom(r: Slot, o: Layer) {
    r.held * o.repr <= o.held
  }

  // A slot of the result at k: the copied one while k is still to come, then the merged one, which is shared with
  // the layer that decides or a dictionary of its own.
  ghost predicate Merged(r: Slot, base: Layer, override: Layer, k: string, pending: bool) {
    && OnlyFrom(r, base) && OnlyFrom(r, override)
    && if pending then k in base.entries && r.entry == base.entries[k]
       else
         && k in base.contents.Keys + override.contents.Keys
         && r.value == Merge(base.contents, override.contents)[k]
         && if BothDicts(base.contents, override.contents, k)
            then r.entry.Ref? && r.entry.dict !in base.repr + override.repr
            else if k in override.entries then r.entry == override.entries[k]
            else k in base.entries && r.entry == base.entries[k]
  }

  ghost predicate MergedAt(r: DictObject, base: DictObject, override: DictObject, k: string, pending: bool)
    reads r, base, override
    reads if k in r.entries && r.entries[k].Ref? then {r.entries[k].dict} else {}
    reads if k in base.entries && base.entries[k].Ref? then {base.entries[k].dict} else {}
    reads if k in override.entries && override.entries[k].Ref? then {override.entries[k].dict} else {}
  {
    && k in r.entries && k in r.Contents
    && Merged(SlotAt(r, k), LayerAt(base, k), LayerAt(override, k), k, pending)
  }

  method DeepMerge(base: DictObject, override: DictObject) returns (r: DictObject)
    requires base.Valid() && override.Valid() && base.Repr !! override.Repr
    ensures fresh(r) && r.Valid() && r.Contents == Merge(base.Contents, override.Contents)
    ensures fresh(r.Repr - base.Repr - override.Repr) && base !in r.Repr && override !in r.Repr
    ensures r.entries.Keys == base.entries.Keys + override.entries.Keys
    ensures forall k <- r.entries.Keys :: MergedAt(r, base, override, k, false)
    decreases override.Repr, 2
  {
    hide DictObject.Held, DictObject.Apart, MergedAt;
    r := Copy(base);
    var todo := override.entries.Keys;
    CopyMerged(r, base, override);
    while todo != {}
      invariant todo <= override.entries.Keys
      invariant fresh(r) && r.Valid() && fresh(r.Repr - base.Repr - override.Repr)
      invariant base !in r.Repr && override !in r.Repr
      invariant r.entries.Keys == base.entries.Keys + (override.entries.Keys - todo)
      invariant forall k <- r.entries.Keys :: MergedAt(r, base, override, k, k in todo)
      decreases todo
    {
      var key :| key in todo;
      MergeKey(r, base, override, key, todo);
      todo := todo - {key};
    }
    Complete(r, base, override);
  }

  lemma CopyMerged(r: DictObject, base: DictObject, override: DictObject)
    requires r.Valid() && base.Valid() && override.Valid() && base.Repr !! override.Repr
    requires r.entries == base.entries && r.Contents == base.Contents
    ensures forall k <- r.entries.Keys :: MergedAt(r, base, override, k, k in override.entries)
  {
    forall k | k in r.entries.Keys ensures MergedAt(r, base, override, k, k in override.entries) {
      if r.entries[k].Ref? {
        base.Nested(k);
      }
    }
  }

  lemma Complete(r: DictObject, base: DictObject, override: DictObject)
    requires r.Valid() && base.Valid() && override.Valid()
    requires r.entries.Keys == base.entries.Keys + override.entries.Keys
    requires forall k <- r.entries.Keys :: MergedAt(r, base, override, k, false)
    ensures r.Contents == Merge(base.Contents, override.Contents)
  {
    hide MergedAt, DictObject.Valid;
    ContentsKeys(r);
    ContentsKeys(base);
    ContentsKeys(override);
    var m := Merge(base.Contents, override.Contents);
    assert m.Keys == r.Contents.Keys;
    forall k | k in m ensures k in r.Contents && r.Contents[k] == m[k] {
      MergedValue(r, base, override, k);
    }
  }

  lemma MergedValue(r: DictObject, base: DictObject, override: DictObject, k: string)
    requires MergedAt(r, base, override, k, false) && k in base.Contents.Keys + override.Contents.Keys
    ensures k in r.Contents && r.Contents[k] == Merge(base.Contents, override.Contents)[k]
  {
    hide Merge, OnlyFrom;
  }

  // The value stored at a key of the override.
  method MergedEntry(base: DictObject, override: DictObject, key: string, r: DictObject) returns (e: Entry)
    requires r.Valid() && base.Valid() && override.Valid() && base.Repr !! override.Repr
    requires key in override.entries
    requires if key in base.entries then key in r.entries && r.entries[key] == base.entries[key] else key !in r.entries
    ensures ValidEntry(e) && Shown(e) == Merge(base.Contents, override.Contents)[key]
    ensures Footprint(e) * base.Repr <= HeldAt(base, key) && Footprint(e) * override.Repr <= HeldAt(override, key)
    ensures fresh(Footprint(e) - base.Repr - override.Repr) && base !in Footprint(e) && override !in Footprint(e)
    ensures if BothDicts(base.Contents, override.Contents, key) then e.Ref?
            && fresh(e.dict) else e == override.entries[key]
    decreases override.Repr, 0
  {
    assert override.Held(key);
    e := override.entries[key];
    if key in r.entries && r.entries[key].Ref? && e.Ref? {
      base.Nested(key);
      override.Nested(key);
      var merged := DeepMerge(r.entries[key].dict, e.dict);
      e := Ref(merged);
    } else {
      if key in base.entries { assert base.Held(key); }
      if e.Ref? { override.Nested(key); }
    }
  }

  // One turn of the loop.
  method MergeKey(r: DictObject, base: DictObject, override: DictObject, key: string, ghost todo: set<string>)
    requires r.Valid() && base.Valid() && override.Valid() && base.Repr !! override.Repr
    requires r !in base.Repr + override.Repr && key in todo && todo <= override.entries.Keys
    requires r.entries.Keys == base.entries.Keys + (override.entries.Keys - todo)
    requires forall k <- r.entries.Keys :: MergedAt(r, base, override, k, k in todo)
    modifies r
    ensures r.Valid() && r.entries.Keys == old(r.entries.Keys) + {key}
    ensures fresh(r.Repr - old(r.Repr) - base.Repr - override.Repr)
    ensures base !in old(r.Repr) && override !in old(r.Repr) ==> base !in r.Repr && override !in r.Repr
    ensures forall k <- r.entries.Keys :: MergedAt(r, base, override, k, k in todo - {key})
    decreases override.Repr, 1
  {
    hide DictObject.Held, DictObject.Apart, MergedAt, HeldAt;
    Pending(r, base, override, key, todo);
    var e := MergedEntry(base, override, key, r);
    Store(r, base, override, key, todo, e);
  }

  method Store(r: DictObject, base: DictObject, override: DictObject, key: string, ghost todo: set<string>, e: Entry)
    requires r.Valid() && base.Valid() && override.Valid() && base.Repr !! override.Repr
    requires r !in base.Repr + override.Repr && r !in Footprint(e) && key in todo && key in override.entries
    requires forall k <- r.entries.Keys :: MergedAt(r, base, override, k, k in todo)
    requires ValidEntry(e) && Shown(e) == Merge(base.Contents, override.Contents)[key]
    requires Footprint(e) * base.Repr <= HeldAt(base, key) && Footprint(e) * override.Repr <= HeldAt(override, key)
    requires Footprint(e) * r.Repr <= base.Repr + override.Repr
    requires if BothDicts(base.Contents, override.Contents, key) then e.Ref? && e.dict !in base.Repr + override.Repr
             else e == override.entries[key]
    modifies r
    ensures r.Valid() && r.entries.Keys == old(r.entries.Keys) + {key} && r.Repr == old(r.Repr) + Footprint(e)
    ensures forall k <- r.entries.Keys :: MergedAt(r, base, override, k, k in todo - {key})
  {
    hide DictObject.Held, DictObject.Apart, Merged, HeldAt, SlotAt, LayerAt, DictObject.Valid;
    SeparateAll(r, base, override, key, todo, e);
    PutApart(r, base, override, key, e);
    forall k | k in r.entries.Keys ensures MergedAt(r, base, override, k, k in todo - {key}) {
      if k != key {
        assert old(MergedAt(r, base, override, k, k in todo));
      }
    }
  }

  method PutApart(r: DictObject, base: DictObject, override: DictObject, key: string, e: Entry)
    requires r.Valid() && base.Valid() && override.Valid()
    requires r !in base.Repr + override.Repr && r !in Footprint(e) && key in override.entries
    requires ValidEntry(e) && Shown(e) == Merge(base.Contents, override.Contents)[key]
    requires Footprint(e) * base.Repr <= HeldAt(base, key) && Footprint(e) * override.Repr <= HeldAt(override, key)
    requires if BothDicts(base.Contents, override.Contents, key) then e.Ref? && e.dict !in base.Repr + override.Repr
             else e == override.entries[key]
    requires forall k <- r.entries.Keys :: k != key && r.entries[k].Ref? ==> r.entries[k].dict.Repr !! Footprint(e)
    modifies r
    ensures r.Valid() && r.entries.Keys == old(r.entries.Keys) + {key} && r.Repr == old(r.Repr) + Footprint(e)
    ensures r.entries.Keys == r.Contents.Keys
    ensures forall k <- old(r.entries.Keys) :: k != key ==> k in old(r.Contents) && SlotAt(r, k) == old(SlotAt(r, k))
    ensures forall k :: LayerAt(base, k) == old(LayerAt(base, k)) && LayerAt(override, k) == old(LayerAt(override, k))
    ensures MergedAt(r, base, override, key, false)
  {
    hide DictObject.Held, DictObject.Apart, Merged, Merge, MergedAt;
    r.Children();
    base.Children();
    override.Children();
    ContentsKeys(r);
    ContentsKeys(override);
    hide DictObject.Valid;
    r.Put(key, e);
    ContentsKeys(r);
    Landed(r, base, override, key, e);
  }

  lemma ContentsKeys(o: DictObject)
    requires o.Valid()
    ensures o.Contents.Keys == o.entries.Keys
  {
  }

  lemma SeparateAll(r: DictObject, base: DictObject, override: DictObject, key: string, todo: set<string>, e: Entry)
    requires r.Valid() && base.Valid() && override.Valid()
    requires forall k <- r.entries.Keys :: MergedAt(r, base, override, k, k in todo)
    requires Footprint(e) * base.Repr <= HeldAt(base, key) && Footprint(e) * override.Repr <= HeldAt(override, key)
    requires Footprint(e) * r.Repr <= base.Repr + override.Repr
    ensures forall k <- r.entries.Keys :: k != key && r.entries[k].Ref? ==> r.entries[k].dict.Repr !! Footprint(e)
  {
    hide MergedAt, DictObject.Valid;
    forall k | k in r.entries.Keys && k != key && r.entries[k].Ref? ensures r.entries[k].dict.Repr !! Footprint(e) {
      Separate(r, base, override, key, e, k, todo);
    }
  }

  lemma Pending(r: DictObject, base: DictObject, override: DictObject, key: string, todo: set<string>)
    requires key in r.entries ==> MergedAt(r, base, override, key, true)
    requires r.entries.Keys == base.entries.Keys + (override.entries.Keys - todo) && key in todo
    ensures if key in base.entries then key in r.entries && r.entries[key] == base.entries[key] else key !in r.entries
  {
  }

  lemma Landed(r: DictObject, base: DictObject, override: DictObject, key: string, e: Entry)
    requires key in override.entries && key in override.Contents
    requires key in r.entries && key in r.Contents && r.entries[key] == e && r.Contents[key] == Shown(e)
    requires Shown(e) == Merge(base.Contents, override.Contents)[key]
    requires Footprint(e) * base.Repr <= HeldAt(base, key) && Footprint(e) * override.Repr <= HeldAt(override, key)
    requires if BothDicts(base.Contents, override.Contents, key) then e.Ref? && e.dict !in base.Repr + override.Repr
             else e == override.entries[key]
    ensures MergedAt(r, base, override, key, false)
  {
  }

  lemma OneHolder(o: DictObject, k: string, l: string)
    requires o.Valid() && k != l
    ensures HeldAt(o, k) !! HeldAt(o, l)
  {
    if k in o.entries && o.entries[k].Ref? {
      o.Nested(k);
    }
  }

  lemma Separate(r: DictObject, base: DictObject, override: DictObject, key: string, e: Entry, k: string,
                 todo: set<string>)
    requires r.Valid() && base.Valid() && override.Valid() && k in r.entries && k != key && r.entries[k].Ref?
    requires MergedAt(r, base, override, k, k in todo)
    requires Footprint(e) * base.Repr <= HeldAt(base, key) && Footprint(e) * override.Repr <= HeldAt(override, key)
    requires Footprint(e) * r.Repr <= base.Repr + override.Repr
    ensures r.entries[k].dict.Repr !! Footprint(e)
  {
    r.Nested(k);
    OneHolder(base, key, k);
    OneHolder(override, key, k);
    Disjoint(HeldAt(r, k), Footprint(e), r.Repr, LayerAt(base, k), HeldAt(base, key), LayerAt(override, k),
        HeldAt(override, key));
  }

  lemma Disjoint(h: set<DictObject>, f: set<DictObject>, all: set<DictObject>,
                 x: Layer, xf: set<DictObject>, y: Layer, yf: set<DictObject>)
    requires h <= all && f * all <= x.repr + y.repr
    requires h * x.repr <= x.held && f * x.repr <= xf && x.held !! xf
    requires h * y.repr <= y.held && f * y.repr <= yf && y.held !! yf
    ensures h !! f
  {
    var both := h * f;
    assert both <= f * all;
    assert both == both * x.repr + both * y.repr;
    assert both * x.repr <= x.held * xf && both * y.repr <= y.held * yf;
    assert both * x.repr == {} && both * y.repr == {};
    assert both == {} && forall x :: x in both <==> x in h && x in f;
  }

  method Copy(base: DictObject) returns (r: DictObject)
    requires base.Valid()
    ensures fresh(r) && r.Valid() && r.entries == base.entries && r.Contents == base.Contents
    ensures r.Repr == base.Repr - {base} + {r}
  {
    r := new DictObject();
    r.entries := base.entries;
    r.Contents := base.Contents;
    r.Repr := base.Repr - {base} + {r};
    forall k | k in r.entries ensures r.Held(k) { assert base.Held(k); }
    forall k, l | k in r.entries && l in r.entries && k != l ensures r.Apart(k, l) {
      assert base.Held(k) && base.Held(l) && base.Apart(k, l);
    }
  }

  // ------------------------------------------------------------------ overrides

  // A fresh object for a value.
  method FromValue(v: Value) returns (e: Entry)
    ensures ValidEntry(e) && Shown(e) == v && fresh(Footprint(e))
    decreases v
  {
    match v
    case Leaf(s) => e := Plain(s);
    case Dict(m) =>
      var d := new DictObject();
      var todo := m.Keys;
      while todo != {}
        invariant todo <= m.Keys && d.Valid() && fresh(d.Repr)
        invariant d.Contents == map k | k in m.Keys - todo :: m[k]
        decreases todo
      {
        var key :| key in todo;
        todo := todo - {key};
        var child := FromValue(m[key]);
        d.Outside(child);
        d.Put(key, child);
      }
      e := Ref(d);
  }

  method ParseOverrides(items: seq<string>, literal: string -> Option<Value>) returns (r: Option<DictObject>)
    ensures r.Some? == Parsed(items, literal).Some?
    ensures r.Some? ==> r.value.Valid() && fresh(r.value.Repr) && r.value.Contents == Parsed(items, literal).value
  {
    var d := new DictObject();
    for i := 0 to |items|
      invariant d.Valid() && fresh(d.Repr) && Parsed(items[..i], literal) == Some(d.Contents)
    {
      assert items[..i + 1][..i] == items[..i];
      match BindingOf(items[i], literal) {
        case None =>
        case Some(b) =>
          var e := FromValue(b.value);
          var ok := d.SetPath(b.path, e);
          if !ok {
            ParsedFails(items, literal, i + 1);
            return None;
          }
      }
    }
    assert items[..|items|] == items;
    r := Some(d);
  }

  lemma {:induction false} ParsedFails(items: seq<string>, literal: string -> Option<Value>, n: nat)
    requires n <= |items| && Parsed(items[..n], literal).None?
    ensures Parsed(items, literal).None?
    decreases |items|
  {
    if n < |items| {
      assert items[..|items| - 1][..n] == items[..n];
      ParsedFails(items[..|items| - 1], literal, n);
    } else {
      assert items[..n] == items;
    }
  }
}
