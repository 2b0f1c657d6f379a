/** Nested configuration dictionaries as values: the deep merge of two layers and its laws. */
module ConfigMerge {
  import opened Wrappers

  // A string, or any other value that is not a dictionary.
  datatype Scalar = Text(text: string) | Literal(code: int)

  type Config = map<string, Value>

  datatype Value = Leaf(scalar: Scalar) | Dict(entries: Config)

  type Path = seq<string>

  // ------------------------------------------------------------------ the merge

  predicate BothDicts(a: Config, b: Config, k: string) {
    k in a && k in b && a[k].Dict? && b[k].Dict?
  }

  function Merge(base: Config, override: Config): Config
    decreases Dict(override)
  {
    map k <- base.Keys + override.Keys ::
      if BothDicts(base, override, k) then Dict(Merge(base[k].entries, override[k].entries))
      else if k in override then override[k] else base[k]
  }

  // The value at a path, if there is one.
  function At(d: Config, p: Path): Option<Value>
    requires p != []
    decreases |p|
  {
    if p[0] !in d then None
    else if |p| == 1 then Some(d[p[0]])
    else if d[p[0]].Dict? then At(d[p[0]].entries, p[1..])
    else None
  }

  // Following the path ends at a missing key, not at a leaf.
  predicate Open(d: Config, p: Path)
    requires p != []
    decreases |p|
  {
    p[0] !in d || (|p| > 1 && d[p[0]].Dict? && Open(d[p[0]].entries, p[1..]))
  }

  // What a reader of the merged dictionary finds: the override decides wherever it has something to say.
  lemma {:induction false} LookupMerge(a: Config, b: Config, p: Path)
    requires p != []
    ensures At(Merge(a, b), p) ==
            if Open(b, p) then At(a, p)
            else match At(b, p) {
              case None => None
              case Some(Leaf(v)) => Some(Leaf(v))
              case Some(Dict(y)) =>
                match At(a, p)
                case Some(Dict(x)) => Some(Dict(Merge(x, y)))
                case _ => Some(Dict(y))
            }
    decreases |p|
  {
    var m := Merge(a, b);
    if |p| > 1 && BothDicts(a, b, p[0]) {
      LookupMerge(a[p[0]].entries, b[p[0]].entries, p[1..]);
    } else if p[0] in b && Open(b, p) {
      OpenIsMissing(b, p);
      assert m[p[0]] == b[p[0]];
    }
  }

  lemma {:induction false} OpenIsMissing(d: Config, p: Path)
    requires p != [] && Open(d, p)
    ensures At(d, p) == None
    decreases |p|
  {
    if |p| > 1 && p[0] in d {
      OpenIsMissing(d[p[0]].entries, p[1..]);
    }
  }

  lemma MergeIdentity(a: Config)
    ensures Merge(map[], a) == a && Merge(a, map[]) == a
  {
  }

  // ------------------------------------------------------------------ absorption

  // c has a key of its own wherever a has one, as far down as both hold dictionaries.
  predicate Covers(c: Config, a: Config)
    decreases Dict(a)
  {
    && a.Keys <= c.Keys
    && forall k <- a.Keys :: BothDicts(a, c, k) ==> Covers(c[k].entries, a[k].entries)
  }

  // Merging c over a leaves just c exactly when c covers a.
  lemma {:induction false} AbsorbedExactlyWhen(a: Config, c: Config)
    ensures Merge(a, c) == c <==> Covers(c, a)
    decreases Dict(a)
  {
    var m := Merge(a, c);
    forall k | BothDicts(a, c, k)
      ensures m[k] == Dict(Merge(a[k].entries, c[k].entries))
      ensures m[k] == c[k] <==> Covers(c[k].entries, a[k].entries)
    {
      AbsorbedExactlyWhen(a[k].entries, c[k].entries);
    }
    if Covers(c, a) {
      assert m.Keys == c.Keys;
    } else if a.Keys <= c.Keys {
      var k :| k in a.Keys && BothDicts(a, c, k) && !Covers(c[k].entries, a[k].entries);
      assert m[k] != c[k];
    } else {
      var k :| k in a.Keys && k !in c.Keys;
      assert k in m;
    }
  }

  lemma {:induction false} CoversItself(a: Config)
    ensures Covers(a, a)
    decreases Dict(a)
  {
    forall k | k in a && a[k].Dict? ensures Covers(a[k].entries, a[k].entries) {
      CoversItself(a[k].entries);
    }
  }

  // The merge has a key wherever either layer has one.
  lemma {:induction false} MergeCovers(a: Config, b: Config)
    ensures Covers(Merge(a, b), b) && Covers(Merge(a, b), a)
    decreases Dict(b)
  {
    var m := Merge(a, b);
    forall k | BothDicts(b, m, k) ensures Covers(m[k].entries, b[k].entries) {
      if BothDicts(a, b, k) { MergeCovers(a[k].entries, b[k].entries); } else { CoversItself(b[k].entries); }
    }
    forall k | BothDicts(a, m, k) ensures Covers(m[k].entries, a[k].entries) {
      if BothDicts(a, b, k) { MergeCovers(a[k].entries, b[k].entries); } else { CoversItself(a[k].entries); }
    }
  }

  lemma MergeIdempotent(a: Config)
    ensures Merge(a, a) == a
  {
    CoversItself(a);
    AbsorbedExactlyWhen(a, a);
  }

  // ------------------------------------------------------------------ associativity

  predicate AllDicts(a: Config, b: Config, c: Config, k: string) {
    BothDicts(a, b, k) && BothDicts(a, c, k)
  }

  // Along paths where all three layers hold dictionaries: no leaf of b stands between a dictionary of a
  // and a dictionary of c that would leave some of a visible.
  predicate NothingResurfaces(a: Config, b: Config, c: Config)
    decreases Dict(a), 1
  {
    forall k <- a.Keys :: NothingResurfacesAt(a, b, c, k)
  }

  predicate NothingResurfacesAt(a: Config, b: Config, c: Config, k: string)
    decreases Dict(a), 0
  {
    BothDicts(a, c, k) && k in b ==>
      if b[k].Dict? then NothingResurfaces(a[k].entries, b[k].entries, c[k].entries)
      else Covers(c[k].entries, a[k].entries)
  }

  lemma {:induction false} AssociativeExactlyWhen(a: Config, b: Config, c: Config)
    ensures Merge(Merge(a, b), c) == Merge(a, Merge(b, c)) <==> NothingResurfaces(a, b, c)
    decreases Dict(a)
  {
    var l, r := Merge(Merge(a, b), c), Merge(a, Merge(b, c));
    assert l.Keys == r.Keys;
    forall k | k in l
      ensures l[k] == r[k] <==> NothingResurfacesAt(a, b, c, k)
    {
      if AllDicts(a, b, c, k) {
        AssociativeExactlyWhen(a[k].entries, b[k].entries, c[k].entries);
      }
      AssociativeAt(a, b, c, k);
    }
    if l != r {
      var k :| k in l && l[k] != r[k];
      assert k in a.Keys;
    }
  }

  // One key, given the claim for what lies below it.
  lemma AssociativeAt(a: Config, b: Config, c: Config, k: string)
    requires k in a || k in b || k in c
    requires AllDicts(a, b, c, k) ==>
      var x, y, z := a[k].entries, b[k].entries, c[k].entries;
      (Merge(Merge(x, y), z) == Merge(x, Merge(y, z)) <==> NothingResurfaces(x, y, z))
    ensures Merge(Merge(a, b), c)[k] == Merge(a, Merge(b, c))[k] <==> NothingResurfacesAt(a, b, c, k)
  {
    if BothDicts(a, c, k) && k in b && !b[k].Dict? {
      AbsorbedExactlyWhen(a[k].entries, c[k].entries);
    }
  }

  // No path is a dictionary in one layer and a leaf in the other.
  predicate SameShape(a: Config, b: Config)
    decreases Dict(a)
  {
    forall k <- a.Keys :: k in b ==>
      a[k].Dict? == b[k].Dict? && (a[k].Dict? ==> SameShape(a[k].entries, b[k].entries))
  }

  lemma {:induction false} SameShapeAssociates(a: Config, b: Config, c: Config)
    requires SameShape(a, b)
    ensures Merge(Merge(a, b), c) == Merge(a, Merge(b, c))
  {
    SameShapeHides(a, b, c);
    AssociativeExactlyWhen(a, b, c);
  }

  lemma {:induction false} SameShapeHides(a: Config, b: Config, c: Config)
    requires SameShape(a, b)
    ensures NothingResurfaces(a, b, c)
    decreases Dict(a)
  {
    forall k | AllDicts(a, b, c, k) ensures NothingResurfaces(a[k].entries, b[k].entries, c[k].entries) {
      SameShapeHides(a[k].entries, b[k].entries, c[k].entries);
    }
  }

  // Applying the same override again changes nothing.
  lemma {:induction false} ReapplyOverride(a: Config, b: Config)
    ensures Merge(Merge(a, b), b) == Merge(a, b)
  {
    MergeCovers(a, b);
    ReapplyHides(a, b);
    AssociativeExactlyWhen(a, b, b);
    MergeIdempotent(b);
  }

  lemma {:induction false} ReapplyHides(a: Config, b: Config)
    ensures NothingResurfaces(a, b, b)
    decreases Dict(a)
  {
    forall k | BothDicts(a, b, k) ensures NothingResurfaces(a[k].entries, b[k].entries, b[k].entries) {
      ReapplyHides(a[k].entries, b[k].entries);
    }
  }

  // Without the condition the order of merging matters: a leaf of the middle layer hides the lowest one only
  // when it is merged first.
  lemma NotAssociative()
    ensures var a, b, c := map["k" := Dict(map["x" := Leaf(Literal(1))])],
                           map["k" := Leaf(Literal(2))],
                           map["k" := Dict(map["y" := Leaf(Literal(3))])];
            At(Merge(Merge(a, b), c), ["k", "x"]) == None
            && At(Merge(a, Merge(b, c)), ["k", "x"]) == Some(Leaf(Literal(1)))
  {
    var a: Config, b: Config, c: Config := map["k" := Dict(map["x" := Leaf(Literal(1))])],
                           map["k" := Leaf(Literal(2))],
                           map["k" := Dict(map["y" := Leaf(Literal(3))])];
    assert Merge(a, b)["k"] == Leaf(Literal(2));
    assert Merge(b, c)["k"] == c["k"];
  }
}
