/** Renumbering the layers of pipeline stages into one model, and laying that model out in shard files. */
module StageLayout {
  import opened Arithmetic
  import opened NumpyRows
  import opened PipelineShards
  import opened Wrappers

  // ------------------------------------------------------------------ prefix sums

  // The stage and local number of a global one.
  function Locate(sizes: seq<nat>, g: nat): (at: (nat, nat))
    requires g < Prefix(sizes, |sizes|)
    ensures at.0 < |sizes| && at.1 < sizes[at.0] && Prefix(sizes, at.0) + at.1 == g
  {
    LocateIn(sizes, |sizes|, g)
  }

  function LocateIn(sizes: seq<nat>, k: nat, g: nat): (at: (nat, nat))
    requires k <= |sizes| && g < Prefix(sizes, k)
    ensures at.0 < k && at.1 < sizes[at.0] && Prefix(sizes, at.0) + at.1 == g
  {
    if g >= Prefix(sizes, k - 1) then (k - 1, g - Prefix(sizes, k - 1)) else LocateIn(sizes, k - 1, g)
  }

  lemma CellsDisjoint(sizes: seq<nat>, s: nat, a: nat, t: nat, b: nat)
    requires s < |sizes| && a < sizes[s] && t < |sizes| && b < sizes[t]
    requires Prefix(sizes, s) + a == Prefix(sizes, t) + b
    ensures s == t && a == b
  {
    if s < t {
      PrefixGrows(sizes, s, t);
    } else if t < s {
      PrefixGrows(sizes, t, s);
    }
  }

  // Local numbers of all stages fill 0..total-1 without gap or clash.
  lemma NumberingIsBijective(sizes: seq<nat>, s: nat, a: nat, t: nat, b: nat)
    requires s < |sizes| && a < sizes[s] && t < |sizes| && b < sizes[t]
    ensures Prefix(sizes, s) + a < Prefix(sizes, |sizes|)
    ensures Prefix(sizes, s) + a == Prefix(sizes, t) + b <==> s == t && a == b
    ensures Locate(sizes, Prefix(sizes, s) + a) == (s, a)
  {
    PrefixGrows(sizes, s, |sizes|);
    var at := Locate(sizes, Prefix(sizes, s) + a);
    CellsDisjoint(sizes, at.0, at.1, s, a);
    if Prefix(sizes, s) + a == Prefix(sizes, t) + b {
      CellsDisjoint(sizes, s, a, t, b);
    }
  }

  // ------------------------------------------------------------------ merging the stages

  // A state-dict key after the name translation, with its layer number taken out.
  datatype Key = Layered(layer: nat, name: string) | Plain(name: string)

  type Dict<T> = map<Key, T>

  function Renumber(k: Key, offset: nat): Key {
    match k
    case Layered(i, name) => Layered(i + offset, name)
    case Plain(_) => k
  }

  // Every layer number met is at most h, and h is met unless it is 0.
  ghost predicate IsHandled(keys: set<Key>, h: nat) {
    && (forall k :: k in keys && k.Layered? ==> k.layer <= h)
    && (h == 0 || exists k :: k in keys && k.Layered? && k.layer == h)
  }

  // The largest local layer number of a stage, 0 if there is none.
  ghost function Handled(keys: set<Key>): (h: nat)
    ensures IsHandled(keys, h)
  {
    HandledExists(keys);
    var h: nat :| IsHandled(keys, h);
    h
  }

  lemma {:induction false} HandledExists(keys: set<Key>)
    ensures exists h: nat :: IsHandled(keys, h)
  {
    if k :| k in keys {
      HandledExists(keys - {k});
      var h: nat :| IsHandled(keys - {k}, h);
      assert IsHandled(keys, if k.Layered? && k.layer > h then k.layer else h);
    } else {
      assert IsHandled(keys, 0);
    }
  }

  lemma HandledUnique(keys: set<Key>, h: nat)
    requires IsHandled(keys, h)
    ensures h == Handled(keys)
  {
  }

  // layers_cum before stage k, started at `start`.
  ghost function Offset<T>(stages: seq<Dict<T>>, start: nat, k: nat): nat
    requires k <= |stages|
  {
    if k == 0 then start else Offset(stages, start, k - 1) + Handled(stages[k - 1].Keys) + 1
  }

  function Shifted<T>(stage: Dict<T>, offset: nat): Dict<T> {
    map k | k in stage :: Renumber(k, offset) := stage[k]
  }

  ghost function Merged<T>(stages: seq<Dict<T>>, start: nat, k: nat): Dict<T>
    requires k <= |stages|
  {
    if k == 0 then map[] else Merged(stages, start, k - 1) + Shifted(stages[k - 1], Offset(stages, start, k - 1))
  }

  // One stage's keys, in whatever order they come.
  method MergeStage<T>(dict: Dict<T>, stage: Dict<T>, offset: nat) returns (r: Dict<T>, handled: nat)
    ensures r == dict + Shifted(stage, offset)
    ensures handled == Handled(stage.Keys)
  {
    hide Shifted, Handled;
    r, handled := dict, 0;
    var todo := stage.Keys;
    assert Entered(dict, stage, offset, todo, r);
    while todo != {}
      invariant todo <= stage.Keys
      invariant IsHandled(stage.Keys - todo, handled)
      invariant Entered(dict, stage, offset, todo, r)
    {
      var k :| k in todo;
      EnterOne(dict, stage, offset, todo, k, r);
      assert stage.Keys - (todo - {k}) == stage.Keys - todo + {k};
      todo := todo - {k};
      if k.Layered? && k.layer > handled {
        handled := k.layer;
      }
      r := r[Renumber(k, offset) := stage[k]];
    }
    assert stage.Keys - todo == stage.Keys;
    HandledUnique(stage.Keys, handled);
    AllEntered(dict, stage, offset, r);
  }

  ghost predicate Entered<T>(dict: Dict<T>, stage: Dict<T>, offset: nat, todo: set<Key>, r: Dict<T>) {
    && (forall k :: k in stage && k !in todo ==> Renumber(k, offset) in r && r[Renumber(k, offset)] == stage[k])
    && (forall g :: g in dict ==> g in r)
    && (forall g :: g in r ==>
          (g in dict && r[g] == dict[g]) || (exists k :: k in stage && k !in todo && Renumber(k, offset) == g))
  }

  lemma AllEntered<T>(dict: Dict<T>, stage: Dict<T>, offset: nat, r: Dict<T>)
    requires Entered(dict, stage, offset, {}, r)
    ensures r == dict + Shifted(stage, offset)
  {
  }

  lemma EnterOne<T>(dict: Dict<T>, stage: Dict<T>, offset: nat, todo: set<Key>, k: Key, r: Dict<T>)
    requires Entered(dict, stage, offset, todo, r) && k in todo && k in stage
    ensures Entered(dict, stage, offset, todo - {k}, r[Renumber(k, offset) := stage[k]])
  {
    var r' := r[Renumber(k, offset) := stage[k]];
    forall g | g in r' && !(g in dict && r'[g] == dict[g])
      ensures exists q :: q in stage && q !in todo - {k} && Renumber(q, offset) == g
    {
      if g != Renumber(k, offset) {
        var q :| q in stage && q !in todo && Renumber(q, offset) == g;
        assert q !in todo - {k};
      }
    }
  }

  method MergeStateDicts<T>(stages: seq<Dict<T>>, start: nat) returns (dict: Dict<T>)
    ensures dict == Merged(stages, start, |stages|)
  {
    dict := map[];
    var layersCum := start;
    for s := 0 to |stages|
      invariant layersCum == Offset(stages, start, s)
      invariant dict == Merged(stages, start, s)
    {
      var layersHandled;
      dict, layersHandled := MergeStage(dict, stages[s], layersCum);
      layersCum := layersCum + layersHandled + 1;
    }
  }

  // ------------------------------------------------------------------ where each layer ends up

  // The stage holds exactly the local layers 0..n-1.
  ghost predicate HasLayers<T>(stage: Dict<T>, n: nat) {
    && (forall k :: k in stage && k.Layered? ==> k.layer < n)
    && (forall i: nat :: i < n ==> HasLayer(stage, i))
  }

  ghost predicate HasLayer<T>(stage: Dict<T>, i: nat) {
    exists k :: k in stage && k.Layered? && k.layer == i
  }

  ghost predicate StagesHave<T>(stages: seq<Dict<T>>, sizes: seq<nat>) {
    |stages| == |sizes| && forall s :: 0 <= s < |stages| ==> HasLayers(stages[s], sizes[s])
  }

  lemma HandledOfStage<T>(stage: Dict<T>, n: nat)
    requires HasLayers(stage, n)
    ensures Handled(stage.Keys) + 1 == if n == 0 then 1 else n
  {
    if n > 0 {
      assert HasLayer(stage, n - 1);
    }
  }

  // How many of the first k stages have no layer.
  function EmptyBefore(sizes: seq<nat>, k: nat): (r: nat)
    requires k <= |sizes|
  {
    if k == 0 then 0 else EmptyBefore(sizes, k - 1) + if sizes[k - 1] == 0 then 1 else 0
  }

  // Every stage without layers shifts all later ones by one.
  lemma {:induction false} OffsetIs<T>(stages: seq<Dict<T>>, sizes: seq<nat>, start: nat, k: nat)
    requires StagesHave(stages, sizes) && k <= |stages|
    ensures Offset(stages, start, k) == start + Prefix(sizes, k) + EmptyBefore(sizes, k)
  {
    if k > 0 {
      OffsetIs(stages, sizes, start, k - 1);
      HandledOfStage(stages[k - 1], sizes[k - 1]);
    }
  }

  lemma {:induction false} EmptyBeforeCounts(sizes: seq<nat>, k: nat)
    requires k <= |sizes|
    ensures EmptyBefore(sizes, k) == 0 <==> forall s :: 0 <= s < k ==> sizes[s] > 0
  {
    if k > 0 {
      EmptyBeforeCounts(sizes, k - 1);
    }
  }

  lemma {:induction false} EmptyBeforeGrows(sizes: seq<nat>, j: nat, k: nat)
    requires j <= k <= |sizes|
    ensures EmptyBefore(sizes, j) <= EmptyBefore(sizes, k)
    decreases k - j
  {
    if j < k {
      EmptyBeforeGrows(sizes, j, k - 1);
    }
  }

  predicate EveryStageHasLayers(sizes: seq<nat>) {
    forall s :: 0 <= s < |sizes| ==> sizes[s] > 0
  }

  // No stage with layers follows one without.
  predicate EmptyStagesLast(sizes: seq<nat>) {
    forall s, t :: 0 <= s < t < |sizes| && sizes[s] == 0 ==> sizes[t] == 0
  }

  ghost predicate RunningIsPrefix<T>(stages: seq<Dict<T>>, sizes: seq<nat>, start: nat)
    requires |stages| == |sizes|
  {
    forall k: nat :: k <= |stages| ==> Offset(stages, start, k) == start + Prefix(sizes, k)
  }

  ghost predicate RunningIsPrefixAtLayers<T>(stages: seq<Dict<T>>, sizes: seq<nat>, start: nat)
    requires |stages| == |sizes|
  {
    forall k: nat :: k < |stages| && sizes[k] > 0 ==> Offset(stages, start, k) == start + Prefix(sizes, k)
  }

  // The running counter is the prefix sum wherever it numbers a layer exactly when the stages without layers come
  // last, and at all stages and after the last exactly when there are none.
  lemma RunningOffsetExactlyWhen<T>(stages: seq<Dict<T>>, sizes: seq<nat>, start: nat)
    requires StagesHave(stages, sizes)
    ensures RunningIsPrefixAtLayers(stages, sizes, start) <==> EmptyStagesLast(sizes)
    ensures RunningIsPrefix(stages, sizes, start) <==> EveryStageHasLayers(sizes)
  {
    forall k: nat | k <= |stages|
      ensures Offset(stages, start, k) == start + Prefix(sizes, k) <==> forall s :: 0 <= s < k ==> sizes[s] > 0
    {
      OffsetIs(stages, sizes, start, k);
      EmptyBeforeCounts(sizes, k);
    }
    hide Offset, Prefix, StagesHave, EmptyBefore;
    if RunningIsPrefix(stages, sizes, start) {
      assert Offset(stages, start, |stages|) == start + Prefix(sizes, |stages|);
    }
  }

  // ------------------------------------------------------------------ the merged dictionary

  // Where the entry of a stage's local layer ends up.
  ghost function MergedKey<T>(stages: seq<Dict<T>>, start: nat, s: nat, local: nat, name: string): Key
    requires s <= |stages|
  {
    Layered(local + Offset(stages, start, s), name)
  }

  // Where it belongs in the whole model.
  function GlobalKey(sizes: seq<nat>, start: nat, s: nat, local: nat, name: string): Key
    requires s <= |sizes|
  {
    Layered(local + (start + Prefix(sizes, s)), name)
  }

  lemma ShiftedLayer<T>(stage: Dict<T>, offset: nat, g: nat, name: string)
    ensures Layered(g, name) in Shifted(stage, offset) <==> g >= offset && Layered(g - offset, name) in stage
    ensures Layered(g, name) in Shifted(stage, offset) ==>
              Shifted(stage, offset)[Layered(g, name)] == stage[Layered(g - offset, name)]
  {
    if g >= offset {
      assert Renumber(Layered(g - offset, name), offset) == Layered(g, name);
    }
  }

  lemma LayerBelow<T>(stages: seq<Dict<T>>, sizes: seq<nat>, t: nat, local: nat, name: string)
    requires StagesHave(stages, sizes) && t < |stages| && Layered(local, name) in stages[t]
    ensures local < sizes[t]
  {
  }

  // The stages' layers lie apart.
  lemma OffsetsApart<T>(stages: seq<Dict<T>>, sizes: seq<nat>, start: nat, s: nat, t: nat)
    requires StagesHave(stages, sizes) && s < t <= |stages|
    ensures Offset(stages, start, s) + sizes[s] <= Offset(stages, start, t)
  {
    OffsetIs(stages, sizes, start, s);
    OffsetIs(stages, sizes, start, t);
    PrefixGrows(sizes, s, t);
    EmptyBeforeGrows(sizes, s, t);
  }

  // The renumbered stage t holds the merged key of (s, local) only if it is stage s itself.
  lemma ShiftedStage<T>(stages: seq<Dict<T>>, sizes: seq<nat>, start: nat, t: nat, s: nat, local: nat, name: string)
    requires StagesHave(stages, sizes) && t < |stages| && s < |stages| && local < sizes[s]
    ensures var g := MergedKey(stages, start, s, local, name);
            var shifted := Shifted(stages[t], Offset(stages, start, t));
            (g in shifted <==> s == t && Layered(local, name) in stages[s])
            && (g in shifted ==> shifted[g] == stages[s][Layered(local, name)])
  {
    hide Shifted, HasLayers, Offset;
    var at, offset := local + Offset(stages, start, s), Offset(stages, start, t);
    ShiftedLayer(stages[t], offset, at, name);
    if at >= offset && Layered(at - offset, name) in stages[t] {
      LayerBelow(stages, sizes, t, at - offset, name);
    }
    if s < t {
      OffsetsApart(stages, sizes, start, s, t);
    } else if t < s {
      OffsetsApart(stages, sizes, start, t, s);
    }
  }

  // Whatever the stages hold, every local layer is found under its merged key with its own entry.
  lemma {:induction false} MergedEntry<T>(stages: seq<Dict<T>>, sizes: seq<nat>, start: nat, k: nat, s: nat,
                                          local: nat, name: string)
    requires StagesHave(stages, sizes) && k <= |stages| && s < |stages| && local < sizes[s]
    ensures var g := MergedKey(stages, start, s, local, name);
            (g in Merged(stages, start, k) <==> s < k && Layered(local, name) in stages[s])
            && (g in Merged(stages, start, k) ==> Merged(stages, start, k)[g] == stages[s][Layered(local, name)])
  {
    hide Offset, Shifted, StagesHave;
    if k > 0 {
      MergedEntry(stages, sizes, start, k - 1, s, local, name);
      ShiftedStage(stages, sizes, start, k - 1, s, local, name);
    }
  }

  // And there is no other layered entry.
  lemma {:induction false} MergedOnly<T>(stages: seq<Dict<T>>, sizes: seq<nat>, start: nat, k: nat, g: Key)
    returns (s: nat, local: nat)
    requires StagesHave(stages, sizes) && k <= |stages| && g in Merged(stages, start, k) && g.Layered?
    ensures s < k && local < sizes[s] && Layered(local, g.name) in stages[s]
    ensures g == MergedKey(stages, start, s, local, g.name)
  {
    hide Offset, Shifted, StagesHave;
    var offset := Offset(stages, start, k - 1);
    if g in Shifted(stages[k - 1], offset) {
      ShiftedLayer(stages[k - 1], offset, g.layer, g.name);
      s, local := k - 1, g.layer - offset;
      LayerBelow(stages, sizes, s, local, g.name);
    } else {
      s, local := MergedOnly(stages, sizes, start, k - 1, g);
    }
  }

  // Entries outside the layers keep their names: each is that of the last stage to hold it.
  lemma {:induction false} PlainEntry<T>(stages: seq<Dict<T>>, start: nat, k: nat, s: nat, name: string)
    requires s < k <= |stages| && Plain(name) in stages[s] && forall t :: s < t < k ==> Plain(name) !in stages[t]
    ensures Plain(name) in Merged(stages, start, k)
    ensures Merged(stages, start, k)[Plain(name)] == stages[s][Plain(name)]
  {
    ShiftedPlain(stages[k - 1], Offset(stages, start, k - 1), name);
    hide Offset, Shifted;
    if s < k - 1 {
      PlainEntry(stages, start, k - 1, s, name);
    }
  }

  lemma {:induction false} PlainOnly<T>(stages: seq<Dict<T>>, start: nat, k: nat, name: string) returns (s: nat)
    requires k <= |stages| && Plain(name) in Merged(stages, start, k)
    ensures s < k && Plain(name) in stages[s]
  {
    ShiftedPlain(stages[k - 1], Offset(stages, start, k - 1), name);
    hide Offset, Shifted;
    if Plain(name) in stages[k - 1] {
      s := k - 1;
    } else {
      s := PlainOnly(stages, start, k - 1, name);
    }
  }

  lemma ShiftedPlain<T>(stage: Dict<T>, offset: nat, name: string)
    ensures Plain(name) in Shifted(stage, offset) <==> Plain(name) in stage
    ensures Plain(name) in stage ==> Shifted(stage, offset)[Plain(name)] == stage[Plain(name)]
  {
    assert Renumber(Plain(name), offset) == Plain(name);
  }

  // With the stages without layers last, a merged key is the global one.
  lemma MergedIsGlobal<T>(stages: seq<Dict<T>>, sizes: seq<nat>, start: nat, s: nat, local: nat, name: string)
    requires StagesHave(stages, sizes) && EmptyStagesLast(sizes) && s < |stages| && local < sizes[s]
    ensures MergedKey(stages, start, s, local, name) == GlobalKey(sizes, start, s, local, name)
  {
    RunningOffsetExactlyWhen(stages, sizes, start);
  }

  // A layered entry of the merged dictionary is then the entry of the one stage and local layer it numbers.
  lemma MergedLayer<T>(stages: seq<Dict<T>>, sizes: seq<nat>, start: nat, k: nat, s: nat, local: nat, name: string)
    requires StagesHave(stages, sizes) && EmptyStagesLast(sizes)
    requires k <= |stages| && s < |stages| && local < sizes[s]
    ensures var g := GlobalKey(sizes, start, s, local, name);
            (g in Merged(stages, start, k) <==> s < k && Layered(local, name) in stages[s])
            && (g in Merged(stages, start, k) ==> Merged(stages, start, k)[g] == stages[s][Layered(local, name)])
  {
    hide Merged, StagesHave, MergedKey, GlobalKey;
    MergedIsGlobal(stages, sizes, start, s, local, name);
    MergedEntry(stages, sizes, start, k, s, local, name);
  }

  // No other layered entry exists: every one lies between start and start plus the number of layers.
  lemma MergedWithin<T>(stages: seq<Dict<T>>, sizes: seq<nat>, start: nat, k: nat, g: Key)
    requires StagesHave(stages, sizes) && EmptyStagesLast(sizes)
    requires k <= |stages| && g in Merged(stages, start, k) && g.Layered?
    ensures start <= g.layer < start + Prefix(sizes, k)
  {
    var s, local := MergedOnly(stages, sizes, start, k, g);
    hide Merged, StagesHave, MergedKey;
    MergedIsGlobal(stages, sizes, start, s, local, g.name);
    PrefixGrows(sizes, s, k);
  }

  // Every local layer is found where it belongs, with its own entry.
  ghost predicate NumberedRight<T(!new)>(stages: seq<Dict<T>>, sizes: seq<nat>, start: nat)
    requires |stages| == |sizes|
  {
    forall s: nat, local: nat, name: string :: s < |stages| && Layered(local, name) in stages[s] ==>
      var g, merged := GlobalKey(sizes, start, s, local, name), Merged(stages, start, |stages|);
      g in merged && merged[g] == stages[s][Layered(local, name)]
  }

  // The first stage with layers behind one without.
  lemma {:induction false} FirstShifted(sizes: seq<nat>, t: nat) returns (f: nat)
    requires t < |sizes| && sizes[t] > 0 && exists s :: 0 <= s < t && sizes[s] == 0
    ensures f <= t && sizes[f] > 0 && (exists s :: 0 <= s < f && sizes[s] == 0)
    ensures forall s :: 0 <= s < f && sizes[s] > 0 ==> forall r :: 0 <= r < s ==> sizes[r] > 0
  {
    if s :| 0 <= s < t && sizes[s] > 0 && exists r :: 0 <= r < s && sizes[r] == 0 {
      f := FirstShifted(sizes, s);
    } else {
      f := t;
    }
  }

  // Its first layer is missing where it belongs: nothing has that number.
  lemma ShiftedMissing<T>(stages: seq<Dict<T>>, sizes: seq<nat>, start: nat, f: nat, name: string)
    requires StagesHave(stages, sizes) && f < |stages| && sizes[f] > 0 && (exists s :: 0 <= s < f && sizes[s] == 0)
    requires forall s :: 0 <= s < f && sizes[s] > 0 ==> forall r :: 0 <= r < s ==> sizes[r] > 0
    ensures GlobalKey(sizes, start, f, 0, name) !in Merged(stages, start, |stages|)
  {
    var g := GlobalKey(sizes, start, f, 0, name);
    if g in Merged(stages, start, |stages|) {
      var s, local := MergedOnly(stages, sizes, start, |stages|, g);
      hide Merged, StagesHave;
      OffsetIs(stages, sizes, start, s);
      OffsetIs(stages, sizes, start, f);
      EmptyBeforeCounts(sizes, f);
      EmptyBeforeCounts(sizes, s);
      if s < f {
        PrefixGrows(sizes, s, f);
      } else if f < s {
        OffsetsApart(stages, sizes, start, f, s);
      }
      hide Offset, Prefix, EmptyBefore;
      assert false;
    }
  }

  // The stages are numbered as in the whole model exactly when no stage with layers follows one without.
  lemma NumberedRightExactlyWhen<T(!new)>(stages: seq<Dict<T>>, sizes: seq<nat>, start: nat)
    requires StagesHave(stages, sizes)
    ensures NumberedRight(stages, sizes, start) <==> EmptyStagesLast(sizes)
  {
    hide Merged, GlobalKey, HasLayers;
    if EmptyStagesLast(sizes) {
      forall s: nat, local: nat, name: string | s < |stages| && Layered(local, name) in stages[s]
        ensures var g, merged := GlobalKey(sizes, start, s, local, name), Merged(stages, start, |stages|);
                g in merged && merged[g] == stages[s][Layered(local, name)]
      {
        LayerBelow(stages, sizes, s, local, name);
        MergedLayer(stages, sizes, start, |stages|, s, local, name);
      }
    } else {
      var r, t :| 0 <= r < t < |sizes| && sizes[r] == 0 && sizes[t] > 0;
      var f := FirstShifted(sizes, t);
      var name := SomeName(stages, sizes, f);
      ShiftedMissing(stages, sizes, start, f, name);
    }
  }

  lemma SomeName<T>(stages: seq<Dict<T>>, sizes: seq<nat>, f: nat) returns (name: string)
    requires StagesHave(stages, sizes) && f < |stages| && sizes[f] > 0
    ensures Layered(0, name) in stages[f]
  {
    assert HasLayer(stages[f], 0);
    var k :| k in stages[f] && k.Layered? && k.layer == 0;
    name := k.name;
  }

  // One stage without layers in front of one with a single layer, which is numbered 1 instead of 0.
  const ONE_LAYER: Dict<int> := map[Layered(0, "w") := 7]

  lemma EmptyStageShifts()
    ensures StagesHave([map[], ONE_LAYER], [0, 1]) && GlobalKey([0, 1], 0, 1, 0, "w") == Layered(0, "w")
    ensures Merged([map[], ONE_LAYER], 0, 2) == map[Layered(1, "w") := 7]
  {
    OneLayerHas();
    MergedTwo(map[], ONE_LAYER);
    hide Merged, Handled, Shifted, Renumber, HasLayers;
    var none: Dict<int> := map[];
    HandledUnique(none.Keys, 0);
    NothingShifted(0);
    OneLayerShifted();
  }

  lemma MergedTwo<T>(a: Dict<T>, b: Dict<T>)
    ensures Merged([a, b], 0, 2) == Shifted(a, 0) + Shifted(b, Handled(a.Keys) + 1)
  {
    hide Shifted, Handled;
    assert Offset([a, b], 0, 0) == 0 && Offset([a, b], 0, 1) == Handled(a.Keys) + 1;
    assert Merged([a, b], 0, 1) == Shifted(a, 0);
  }

  lemma OneLayerHas()
    ensures HasLayers<int>(map[], 0) && HasLayers(ONE_LAYER, 1)
  {
    assert Layered(0, "w") in ONE_LAYER && HasLayer(ONE_LAYER, 0);
  }

  lemma OneLayerShifted()
    ensures Shifted(ONE_LAYER, 1) == map[Layered(1, "w") := 7]
  {
    assert Renumber(Layered(0, "w"), 1) == Layered(1, "w");
    assert Layered(0, "w") in ONE_LAYER;
  }

  lemma NothingShifted(offset: nat)
    ensures Shifted<int>(map[], offset) == map[]
  {
  }

  // ------------------------------------------------------------------ shard files

  function SavesPerLayer(layers: nat): nat {
    if layers < 30 then 1 else 2
  }

  // The file each of the first p keys of a rank is written to; `first` files belong to earlier ranks.
  function FileMap(keys: seq<string>, parts: nat, first: nat, p: nat): map<string, nat>
    requires parts > 0 && p <= |keys|
  {
    if p == 0 then map[]
    else FileMap(keys, parts, first, p - 1)[keys[p - 1] := first + PartOf(|keys|, parts, p - 1) + 1]
  }

  method SaveRank(keys: seq<string>, layersThisRank: nat, layerStart: nat, layers: nat)
    returns (index: map<string, nat>)
    requires layersThisRank > 0
    ensures var saves := SavesPerLayer(layers);
            layersThisRank * saves > 0
            && index == FileMap(keys, layersThisRank * saves, layerStart * saves, |keys|)
  {
    var saves := SavesPerLayer(layers);
    var parts := layersThisRank * saves;
    PositiveProduct(layersThisRank, saves);
    index := map[];
    var n := |keys|;
    PartStep(n, parts, 0);
    for i := 0 to parts
      invariant PartStart(n, parts, i) <= n
      invariant index == FileMap(keys, parts, layerStart * saves, PartStart(n, parts, i))
    {
      PartsOrdered(n, parts, i, i + 1);
      var saveIdx := layerStart * saves + i;
      for p := PartStart(n, parts, i) to PartStart(n, parts, i + 1)
        invariant index == FileMap(keys, parts, layerStart * saves, p)
      {
        PartOfUnique(n, parts, p, i);
        index := index[keys[p] := saveIdx + 1];
      }
    }
  }

  lemma PositiveProduct(a: nat, b: nat)
    requires a > 0 && b > 0
    ensures a * b > 0
  {
  }

  // On one rank every key is in exactly one file, the one of the part that holds it, and no other key is.
  lemma {:induction false} FileMapEntries(keys: seq<string>, parts: nat, first: nat, p: nat)
    requires parts > 0 && p <= |keys| && forall a, b :: 0 <= a < b < |keys| ==> keys[a] != keys[b]
    ensures var index := FileMap(keys, parts, first, p);
            (forall q :: 0 <= q < p ==> keys[q] in index && index[keys[q]] == first + PartOf(|keys|, parts, q) + 1)
            && forall k :: k in index ==> k in keys[..p]
  {
    hide PartOf, PartStart;
    if p > 0 {
      FileMapEntries(keys, parts, first, p - 1);
      assert keys[..p] == keys[..p - 1] + [keys[p - 1]];
    }
  }

  function Scale(sizes: seq<nat>, k: nat): seq<nat> {
    seq(|sizes|, i requires 0 <= i < |sizes| => sizes[i] * k)
  }

  lemma {:induction false} PrefixScale(sizes: seq<nat>, k: nat, i: nat)
    requires i <= |sizes|
    ensures Prefix(Scale(sizes, k), i) == Prefix(sizes, i) * k
  {
    if i > 0 {
      PrefixScale(sizes, k, i - 1);
      assert (Prefix(sizes, i - 1) + sizes[i - 1]) * k == Prefix(sizes, i - 1) * k + sizes[i - 1] * k;
    }
  }

  // The files of all ranks are numbered 1..total: each number is written by exactly one rank, once.
  lemma FilesAreNumberedOnce(shards: seq<nat>, saves: nat, f: nat)
    requires 1 <= f <= Prefix(shards, |shards|) * saves
    ensures exists r, i :: IsFile(shards, saves, f, r, i)
    ensures forall r, i, r', i' :: IsFile(shards, saves, f, r, i) && IsFile(shards, saves, f, r', i') ==>
              r == r' && i == i'
  {
    var scaled := Scale(shards, saves);
    forall r: nat | r <= |shards|
      ensures Prefix(scaled, r) == Prefix(shards, r) * saves
    {
      PrefixScale(shards, saves, r);
    }
    var at := Locate(scaled, f - 1);
    assert IsFile(shards, saves, f, at.0, at.1);
    forall r, i, r', i' | IsFile(shards, saves, f, r, i) && IsFile(shards, saves, f, r', i')
      ensures r == r' && i == i'
    {
      CellsDisjoint(scaled, r, i, r', i');
    }
  }

  // Rank r writes its i-th part to file f.
  predicate IsFile(shards: seq<nat>, saves: nat, f: nat, r: nat, i: nat) {
    r < |shards| && i < shards[r] * saves && f == Prefix(shards, r) * saves + i + 1
  }

  // And no rank writes outside that range.
  lemma FilesInRange(shards: seq<nat>, saves: nat, f: nat, r: nat, i: nat)
    requires IsFile(shards, saves, f, r, i)
    ensures 1 <= f <= Prefix(shards, |shards|) * saves
  {
    PrefixScale(shards, saves, r);
    PrefixScale(shards, saves, |shards|);
    PrefixGrows(Scale(shards, saves), r, |shards|);
  }

  // ------------------------------------------------------------------ the index of all ranks

  // What rank r contributes to the index.
  function IndexOf(shards: seq<nat>, saves: nat, keys: seq<seq<string>>, r: nat): map<string, nat>
    requires r < |shards| == |keys| && shards[r] * saves > 0
  {
    FileMap(keys[r], shards[r] * saves, Prefix(shards, r) * saves, |keys[r]|)
  }

  predicate AllHaveParts(shards: seq<nat>, saves: nat) {
    forall r :: 0 <= r < |shards| ==> shards[r] * saves > 0
  }

  // all_gather_object, and then one dictionary of all ranks' entries.
  function GatheredIndex(shards: seq<nat>, saves: nat, keys: seq<seq<string>>, n: nat): map<string, nat>
    requires n <= |shards| == |keys| && AllHaveParts(shards, saves)
  {
    if n == 0 then map[] else GatheredIndex(shards, saves, keys, n - 1) + IndexOf(shards, saves, keys, n - 1)
  }

  // No key is held by two ranks, or twice by one.
  ghost predicate KeysDistinct(keys: seq<seq<string>>) {
    forall r, p, r', p' | 0 <= r < |keys| && 0 <= r' < |keys| && 0 <= p < |keys[r]| && 0 <= p' < |keys[r']| ::
      keys[r][p] == keys[r'][p'] ==> r == r' && p == p'
  }

  ghost predicate HeldBy(keys: seq<seq<string>>, n: nat, k: string) {
    exists r, p :: 0 <= r < n && r < |keys| && 0 <= p < |keys[r]| && keys[r][p] == k
  }

  // The file a rank's p-th key is in.
  function FileOfKey(shards: seq<nat>, saves: nat, keys: seq<seq<string>>, r: nat, p: nat): nat
    requires r < |shards| == |keys| && shards[r] * saves > 0 && p < |keys[r]|
  {
    Prefix(shards, r) * saves + PartOf(|keys[r]|, shards[r] * saves, p) + 1
  }

  lemma IndexEntries(shards: seq<nat>, saves: nat, keys: seq<seq<string>>, r: nat)
    requires r < |shards| == |keys| && AllHaveParts(shards, saves) && KeysDistinct(keys)
    ensures forall p :: 0 <= p < |keys[r]| ==>
              keys[r][p] in IndexOf(shards, saves, keys, r)
              && IndexOf(shards, saves, keys, r)[keys[r][p]] == FileOfKey(shards, saves, keys, r, p)
    ensures forall k :: k in IndexOf(shards, saves, keys, r) ==> exists p :: 0 <= p < |keys[r]| && keys[r][p] == k
  {
    assert shards[r] * saves > 0;
    FileMapEntries(keys[r], shards[r] * saves, Prefix(shards, r) * saves, |keys[r]|);
    assert keys[r][..|keys[r]|] == keys[r];
    hide FileMap, PartOf, Prefix;
  }

  lemma {:induction false} GatheredEntries(shards: seq<nat>, saves: nat, keys: seq<seq<string>>, n: nat, r: nat, p: nat)
    requires n <= |shards| == |keys| && AllHaveParts(shards, saves) && KeysDistinct(keys)
    requires r < n && p < |keys[r]|
    ensures keys[r][p] in GatheredIndex(shards, saves, keys, n)
    ensures GatheredIndex(shards, saves, keys, n)[keys[r][p]] == FileOfKey(shards, saves, keys, r, p)
  {
    IndexEntries(shards, saves, keys, n - 1);
    hide IndexOf, FileOfKey;
    if r < n - 1 {
      GatheredEntries(shards, saves, keys, n - 1, r, p);
    }
  }

  lemma {:induction false} GatheredOnly(shards: seq<nat>, saves: nat, keys: seq<seq<string>>, n: nat, k: string)
    requires n <= |shards| == |keys| && AllHaveParts(shards, saves) && KeysDistinct(keys)
    requires k in GatheredIndex(shards, saves, keys, n)
    ensures HeldBy(keys, n, k)
  {
    IndexEntries(shards, saves, keys, n - 1);
    hide IndexOf, FileOfKey, KeysDistinct;
    if k in IndexOf(shards, saves, keys, n - 1) {
      var p :| 0 <= p < |keys[n - 1]| && keys[n - 1][p] == k;
    } else {
      GatheredOnly(shards, saves, keys, n - 1, k);
      var r, p :| 0 <= r < n - 1 && 0 <= p < |keys[r]| && keys[r][p] == k;
    }
  }

  lemma {:induction false} PrefixIsSum(sizes: seq<nat>, k: nat)
    requires k <= |sizes|
    ensures Prefix(sizes, k) == Sum(sizes[..k])
  {
    if k > 0 {
      PrefixIsSum(sizes, k - 1);
      assert sizes[..k] == sizes[..k - 1] + [sizes[k - 1]];
      SumConcat(sizes[..k - 1], [sizes[k - 1]]);
      SumSmall(sizes[k - 1], 0);
    }
  }

  // The shards that are computed for a model give every rank at least one file, and all ranks together
  // saves_per_layer files for each layer.
  lemma FilesTotal(layers: nat, ranks: nat, shards: seq<nat>)
    requires layers >= ranks >= 1 && Shards(layers, ranks) == Ok(shards)
    ensures |shards| == ranks && AllHaveParts(shards, SavesPerLayer(layers))
    ensures Prefix(shards, |shards|) * SavesPerLayer(layers) == SavesPerLayer(layers) * layers
  {
    ShardsAreOptimal(layers, ranks);
    hide Shards;
    PrefixIsSum(shards, |shards|);
    assert shards[..|shards|] == shards;
    forall r | 0 <= r < |shards|
      ensures shards[r] * SavesPerLayer(layers) > 0
    {
      PositiveProduct(shards[r], SavesPerLayer(layers));
    }
  }

  // That is one file for each layer of a model of fewer than 30 layers, and two for each layer of a deeper one.
  lemma FilesByDepth(layers: nat, ranks: nat, shards: seq<nat>, r: nat)
    requires layers >= ranks >= 1 && Shards(layers, ranks) == Ok(shards) && r < |shards|
    ensures Prefix(shards, |shards|) * SavesPerLayer(layers) == if layers < 30 then layers else layers + layers
    ensures shards[r] * SavesPerLayer(layers) == if layers < 30 then shards[r] else shards[r] + shards[r]
  {
    FilesTotal(layers, ranks, shards);
  }

  // Every key of every rank is in exactly one of the files 1..saves_total, the one the rank has written it to, and
  // the index holds no other key.
  lemma EveryKeyInOneFile(layers: nat, ranks: nat, shards: seq<nat>, keys: seq<seq<string>>, r: nat, p: nat)
    requires layers >= ranks >= 1 && Shards(layers, ranks) == Ok(shards)
    requires |keys| == ranks && KeysDistinct(keys) && r < ranks && p < |keys[r]|
    ensures |shards| == ranks && AllHaveParts(shards, SavesPerLayer(layers))
    ensures var saves := SavesPerLayer(layers);
            var index := GatheredIndex(shards, saves, keys, ranks);
            && keys[r][p] in index && index[keys[r][p]] == FileOfKey(shards, saves, keys, r, p)
            && 1 <= index[keys[r][p]] <= saves * layers
            && IsFile(shards, saves, index[keys[r][p]], r, PartOf(|keys[r]|, shards[r] * saves, p))
            && forall k :: k in index ==> HeldBy(keys, ranks, k)
  {
    var saves := SavesPerLayer(layers);
    FilesTotal(layers, ranks, shards);
    GatheredEntries(shards, saves, keys, ranks, r, p);
    FilesInRange(shards, saves, FileOfKey(shards, saves, keys, r, p), r, PartOf(|keys[r]|, shards[r] * saves, p));
    hide GatheredIndex, HeldBy, KeysDistinct, PartOf, Prefix;
    forall k | k in GatheredIndex(shards, saves, keys, ranks)
      ensures HeldBy(keys, ranks, k)
    {
      GatheredOnly(shards, saves, keys, ranks, k);
    }
  }
}
