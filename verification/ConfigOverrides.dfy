/** Command-line overrides: dotted keys inserted one after the other into a nested dictionary, and how that
    relates to merging dictionaries. */
module ConfigOverrides {
  import opened Wrappers
  import opened ConfigMerge

  datatype Binding = Binding(path: Path, value: Value)

  // ------------------------------------------------------------------ text

  function IndexOf(s: string, c: char): (r: nat)
    ensures r <= |s| && c !in s[..r] && (r < |s| ==> s[r] == c)
  {
    if s == [] || s[0] == c then 0 else
      var r := IndexOf(s[1..], c) + 1;
      assert s[..r] == [s[0]] + s[1..][..r - 1];
      r
  }

  function Split(s: string, c: char): (r: Path)
    ensures r != []
    decreases |s|
  {
    var n := IndexOf(s, c);
    if n == |s| then [s] else [s[..n]] + Split(s[n + 1..], c)
  }

  function Join(parts: Path, c: char): string
    requires parts != []
  {
    if |parts| == 1 then parts[0] else parts[0] + [c] + Join(parts[1..], c)
  }

  lemma {:induction false} SplitJoins(s: string, c: char)
    ensures Join(Split(s, c), c) == s
    ensures forall p <- Split(s, c) :: c !in p
    decreases |s|
  {
    var n := IndexOf(s, c);
    if n < |s| {
      SplitJoins(s[n + 1..], c);
      assert s == s[..n] + [c] + s[n + 1..];
    }
  }

  lemma {:induction false} IndexOfFirst(s: string, t: string, c: char)
    requires c !in s
    ensures IndexOf(s, c) == |s|
    ensures IndexOf(s + [c] + t, c) == |s|
  {
    if s != [] {
      IndexOfFirst(s[1..], t, c);
      assert (s + [c] + t)[1..] == s[1..] + [c] + t;
    }
  }

  // Every path without separators inside its names is written down as one key and read back.
  lemma {:induction false} JoinSplits(parts: Path, c: char)
    requires parts != [] && forall p <- parts :: c !in p
    ensures Split(Join(parts, c), c) == parts
    decreases |parts|
  {
    if |parts| == 1 {
      IndexOfFirst(parts[0], [], c);
    } else {
      var rest := Join(parts[1..], c);
      IndexOfFirst(parts[0], rest, c);
      JoinSplits(parts[1..], c);
      var s := parts[0] + [c] + rest;
      assert Join(parts, c) == s && s[..|parts[0]|] == parts[0] && s[|parts[0]| + 1..] == rest;
      assert Split(s, c) == [parts[0]] + Split(rest, c);
      hide Split, Join, IndexOf;
      assert parts == [parts[0]] + parts[1..];
    }
  }

  // One command-line item; literal is the result of reading the text as a literal, None when that fails.
  function BindingOf(item: string, literal: string -> Option<Value>): Option<Binding> {
    var n := IndexOf(item, '=');
    if n == |item| then None
    else
      var text := item[n + 1..];
      Some(Binding(Split(item[..n], '.'), match literal(text) case Some(v) => v case None => Leaf(Text(text))))
  }

  lemma {:induction false} JoinAvoids(parts: Path, c: char, d: char)
    requires parts != [] && c != d && forall p <- parts :: d !in p
    ensures d !in Join(parts, c)
    decreases |parts|
  {
    if |parts| > 1 {
      JoinAvoids(parts[1..], c, d);
    }
  }

  // An item is a dotted path, an equals sign and a text that may hold further ones: it binds the path to the literal
  // that the text reads as, or else to the text.
  lemma BindingReads(path: Path, text: string, literal: string -> Option<Value>)
    requires path != [] && forall p <- path :: '.' !in p && '=' !in p
    ensures BindingOf(Join(path, '.') + "=" + text, literal) ==
            Some(Binding(path, if literal(text).Some? then literal(text).value else Leaf(Text(text))))
  {
    var key := Join(path, '.');
    JoinSplits(path, '.');
    JoinAvoids(path, '.', '=');
    IndexOfFirst(key, text, '=');
    hide Split, Join, IndexOf;
    var item := key + "=" + text;
    assert item == key + ['='] + text;
    assert item[..|key|] == key && item[|key| + 1..] == text;
  }

  // Any other item is ignored.
  lemma BindingNeedsSign(item: string, literal: string -> Option<Value>)
    ensures BindingOf(item, literal) == None <==> '=' !in item
  {
    if '=' !in item {
      IndexOfFirst(item, [], '=');
    }
  }

  function Bindings(items: seq<string>, literal: string -> Option<Value>): (r: seq<Binding>)
    ensures forall b <- r :: b.path != []
  {
    if items == [] then [] else
      var earlier := Bindings(items[..|items| - 1], literal);
      match BindingOf(items[|items| - 1], literal)
      case None => earlier
      case Some(b) => earlier + [b]
  }

  // ------------------------------------------------------------------ insertion

  // The dictionary with the value at the path, created on the way; None when the way leads into a leaf.
  function Insert(d: Config, p: Path, v: Value): Option<Config>
    requires p != []
    decreases |p|
  {
    if |p| == 1 then Some(d[p[0] := v])
    else if p[0] in d && d[p[0]].Leaf? then None
    else
      var child := if p[0] in d then d[p[0]].entries else map[];
      match Insert(child, p[1..], v)
      case None => None
      case Some(c) => Some(d[p[0] := Dict(c)])
  }

  function Build(bs: seq<Binding>): Option<Config>
    requires forall b <- bs :: b.path != []
  {
    if bs == [] then Some(map[]) else
      match Build(bs[..|bs| - 1])
      case None => None
      case Some(d) => Insert(d, bs[|bs| - 1].path, bs[|bs| - 1].value)
  }

  function Parsed(items: seq<string>, literal: string -> Option<Value>): Option<Config> {
    Build(Bindings(items, literal))
  }

  // ------------------------------------------------------------------ when it succeeds

  predicate ProperPrefix(p: Path, q: Path) {
    |p| < |q| && p == q[..|p|]
  }

  // The way to the path leads into a leaf.
  predicate Blocked(d: Config, p: Path)
    requires p != []
    decreases |p|
  {
    |p| > 1 && p[0] in d && (d[p[0]].Leaf? || Blocked(d[p[0]].entries, p[1..]))
  }

  lemma {:induction false} InsertExactlyWhen(d: Config, p: Path, v: Value)
    requires p != []
    ensures Insert(d, p, v).Some? <==> !Blocked(d, p)
    decreases |p|
  {
    if |p| > 1 && !(p[0] in d && d[p[0]].Leaf?) {
      InsertExactlyWhen(if p[0] in d then d[p[0]].entries else map[], p[1..], v);
    }
  }

  lemma {:induction false} InsertBlocks(d: Config, p: Path, v: Value, q: Path)
    requires p != [] && q != [] && v.Leaf? && Insert(d, p, v).Some?
    ensures Blocked(Insert(d, p, v).value, q) <==> Blocked(d, q) || ProperPrefix(p, q)
    decreases |p|
  {
    if |p| > 1 && |q| > 1 && p[0] == q[0] {
      InsertBlocks(if p[0] in d then d[p[0]].entries else map[], p[1..], v, q[1..]);
      assert ProperPrefix(p, q) <==> ProperPrefix(p[1..], q[1..]) by {
        assert p == [p[0]] + p[1..];
        assert |p| < |q| ==> q[..|p|] == [q[0]] + q[1..][..|p| - 1];
      }
    }
  }

  // A sequence of assignments of leaves.
  predicate LeafBindings(bs: seq<Binding>) {
    forall b <- bs :: b.path != [] && b.value.Leaf?
  }

  predicate NoLaterExtends(bs: seq<Binding>) {
    forall i, j :: 0 <= i < j < |bs| ==> !ProperPrefix(bs[i].path, bs[j].path)
  }

  // The keys assigned so far decide which ways are blocked.
  lemma {:induction false} BuildBlocks(bs: seq<Binding>, q: Path)
    requires LeafBindings(bs) && Build(bs).Some? && q != []
    ensures Blocked(Build(bs).value, q) <==> exists i :: 0 <= i < |bs| && ProperPrefix(bs[i].path, q)
  {
    if bs != [] {
      var n := |bs| - 1;
      BuildBlocks(bs[..n], q);
      InsertBlocks(Build(bs[..n]).value, bs[n].path, bs[n].value, q);
      if i :| 0 <= i < n && ProperPrefix(bs[..n][i].path, q) {
        assert ProperPrefix(bs[i].path, q);
      }
    }
  }

  // The overrides are accepted exactly when no key extends an earlier one.
  lemma {:induction false} BuildExactlyWhen(bs: seq<Binding>)
    requires LeafBindings(bs)
    ensures Build(bs).Some? <==> NoLaterExtends(bs)
  {
    if bs != [] {
      var n := |bs| - 1;
      BuildExactlyWhen(bs[..n]);
      if Build(bs[..n]).Some? {
        BuildBlocks(bs[..n], bs[n].path);
        InsertExactlyWhen(Build(bs[..n]).value, bs[n].path, bs[n].value);
      }
    }
  }

  // ------------------------------------------------------------------ what the dictionary holds

  predicate Prefix(p: Path, q: Path) {
    |p| <= |q| && p == q[..|p|]
  }

  lemma {:induction false} InsertLookup(d: Config, p: Path, w: Scalar, q: Path, v: Scalar)
    requires p != [] && q != [] && Insert(d, p, Leaf(w)).Some?
    ensures At(Insert(d, p, Leaf(w)).value, q) == Some(Leaf(v)) <==>
            if Prefix(p, q) then p == q && w == v else At(d, q) == Some(Leaf(v))
    decreases |p|
  {
    if |p| > 1 && |q| > 1 && p[0] == q[0] {
      var child := if p[0] in d then d[p[0]].entries else map[];
      InsertLookup(child, p[1..], w, q[1..], v);
      assert p == [p[0]] + p[1..] && q == [q[0]] + q[1..];
      assert Prefix(p, q) <==> Prefix(p[1..], q[1..]) by {
        assert |p| <= |q| ==> q[..|p|] == [q[0]] + q[1..][..|p| - 1];
      }
      assert p[0] !in d ==> At(child, q[1..]) == None;
    }
  }

  // The binding that settles the value at q: nothing after it assigns q or a prefix of q.
  predicate Settles(bs: seq<Binding>, i: nat, q: Path, v: Scalar) {
    i < |bs| && bs[i] == Binding(q, Leaf(v)) && forall j :: i < j < |bs| ==> !Prefix(bs[j].path, q)
  }

  lemma {:induction false} BuildLookup(bs: seq<Binding>, q: Path, v: Scalar)
    requires LeafBindings(bs) && Build(bs).Some? && q != []
    ensures At(Build(bs).value, q) == Some(Leaf(v)) <==> exists i: nat :: Settles(bs, i, q, v)
  {
    if bs != [] {
      var n := |bs| - 1;
      BuildLookup(bs[..n], q, v);
      InsertLookup(Build(bs[..n]).value, bs[n].path, bs[n].value.scalar, q, v);
      SettlesLast(bs, q, v);
      hide Settles, At, Insert;
    }
  }

  // The last binding settles a path, or leaves it as it was settled.
  lemma SettlesLast(bs: seq<Binding>, q: Path, v: Scalar)
    requires bs != []
    ensures var n := |bs| - 1;
            (exists i: nat :: Settles(bs, i, q, v)) <==>
            if Prefix(bs[n].path, q) then bs[n] == Binding(q, Leaf(v)) else exists i: nat :: Settles(bs[..n], i, q, v)
  {
    var n := |bs| - 1;
    if i: nat :| Settles(bs[..n], i, q, v) && !Prefix(bs[n].path, q) {
      assert Settles(bs, i, q, v);
    }
    if i: nat :| Settles(bs, i, q, v) && i < n {
      assert Settles(bs[..n], i, q, v);
    }
    assert bs[n] == Binding(q, Leaf(v)) ==> Settles(bs, n, q, v);
  }

  // ------------------------------------------------------------------ overrides are layers

  function Single(p: Path, v: Value): Config
    requires p != []
  {
    if |p| == 1 then map[p[0] := v] else map[p[0] := Dict(Single(p[1..], v))]
  }

  // Inserting a leaf is merging the dictionary that holds nothing else.
  lemma {:induction false} InsertIsMerge(d: Config, p: Path, v: Value)
    requires p != [] && v.Leaf? && !Blocked(d, p)
    ensures Insert(d, p, v) == Some(Merge(d, Single(p, v)))
    decreases |p|
  {
    var s := Single(p, v);
    var m := Merge(d, s);
    assert s.Keys == {p[0]};
    if |p| == 1 {
      assert m == d[p[0] := v];
    } else {
      var child := if p[0] in d then d[p[0]].entries else map[];
      InsertIsMerge(child, p[1..], v);
      MergeIdentity(Single(p[1..], v));
      assert m == d[p[0] := Dict(Merge(child, Single(p[1..], v)))];
    }
  }

  lemma {:induction false} UnblockedAssociates(x: Config, y: Config, p: Path, v: Value)
    requires p != [] && v.Leaf? && !Blocked(y, p)
    ensures NothingResurfaces(x, y, Single(p, v))
    decreases |p|
  {
    var k := p[0];
    if |p| > 1 && AllDicts(x, y, Single(p, v), k) {
      UnblockedAssociates(x[k].entries, y[k].entries, p[1..], v);
    }
  }

  // Reading xs and then ys is merging what ys alone gives over what xs alone gives.
  lemma {:induction false} BuildConcat(xs: seq<Binding>, ys: seq<Binding>)
    requires LeafBindings(xs + ys) && NoLaterExtends(xs + ys)
    ensures LeafBindings(xs) && LeafBindings(ys) && Build(xs).Some? && Build(ys).Some?
    ensures Build(xs + ys) == Some(Merge(Build(xs).value, Build(ys).value))
    decreases |ys|
  {
    Parts(xs, ys);
    BuildExactlyWhen(xs);
    BuildExactlyWhen(ys);
    if ys == [] {
      assert xs + ys == xs;
      MergeIdentity(Build(xs).value);
    } else {
      var n := |ys| - 1;
      var front, last := ys[..n], ys[n];
      assert (xs + ys)[..|xs| + n] == xs + front && (xs + ys)[|xs| + n] == last;
      assert NoLaterExtends(xs + front);
      BuildConcat(xs, front);
      BuildExactlyWhen(xs + ys);
      hide NoLaterExtends, Merge, Insert;
      InsertOver(Build(xs).value, Build(front).value, last.path, last.value);
    }
  }

  // One more leaf over a lower layer.
  lemma InsertOver(x: Config, y: Config, p: Path, v: Value)
    requires p != [] && v.Leaf? && Insert(Merge(x, y), p, v).Some? && Insert(y, p, v).Some?
    ensures Insert(Merge(x, y), p, v).value == Merge(x, Insert(y, p, v).value)
  {
    hide Merge, Insert, Blocked, NothingResurfaces;
    InsertExactlyWhen(Merge(x, y), p, v);
    InsertExactlyWhen(y, p, v);
    InsertIsMerge(Merge(x, y), p, v);
    InsertIsMerge(y, p, v);
    UnblockedAssociates(x, y, p, v);
    AssociativeExactlyWhen(x, y, Single(p, v));
  }

  lemma Parts(xs: seq<Binding>, ys: seq<Binding>)
    requires LeafBindings(xs + ys) && NoLaterExtends(xs + ys)
    ensures LeafBindings(xs) && LeafBindings(ys) && NoLaterExtends(xs) && NoLaterExtends(ys)
  {
    var all := xs + ys;
    forall b | b in xs ensures b in all { }
    forall b | b in ys ensures b in all { }
    forall i, j | 0 <= i < j < |xs| ensures !ProperPrefix(xs[i].path, xs[j].path) {
      assert xs[i] == all[i] && xs[j] == all[j];
    }
    forall i, j | 0 <= i < j < |ys| ensures !ProperPrefix(ys[i].path, ys[j].path) {
      assert ys[i] == all[|xs| + i] && ys[j] == all[|xs| + j];
    }
  }

  // No key is a proper prefix of another, in whatever order they come.
  predicate PrefixFree(bs: seq<Binding>) {
    forall b <- bs, c <- bs :: !ProperPrefix(b.path, c.path)
  }

  lemma {:induction false} BindingsConcat(xs: seq<string>, ys: seq<string>, literal: string -> Option<Value>)
    ensures Bindings(xs + ys, literal) == Bindings(xs, literal) + Bindings(ys, literal)
    decreases |ys|
  {
    if ys == [] {
      assert xs + ys == xs;
    } else {
      var n := |ys| - 1;
      assert (xs + ys)[..|xs| + n] == xs + ys[..n];
      BindingsConcat(xs, ys[..n], literal);
    }
  }

  // The same for command-line items: prefix-free keys and values that are not dictionaries.
  lemma {:induction false} ParseConcat(xs: seq<string>, ys: seq<string>, literal: string -> Option<Value>)
    requires var bs := Bindings(xs + ys, literal); LeafBindings(bs) && PrefixFree(bs)
    ensures Parsed(xs, literal).Some? && Parsed(ys, literal).Some?
    ensures Parsed(xs + ys, literal) == Some(Merge(Parsed(xs, literal).value, Parsed(ys, literal).value))
  {
    BindingsConcat(xs, ys, literal);
    BuildConcat(Bindings(xs, literal), Bindings(ys, literal));
  }
}
