/** Stacking the expert weights of a mixture-of-experts checkpoint, and unstacking them. */
module MoeCheckpoint {
  import opened Wrappers

  datatype Proj = Gate | Up | Down

  // A state-dict key, parsed: one expert's projection, all experts' stacked projection, or anything else.
  datatype Key = Expert(layer: nat, expert: nat, proj: Proj) | Stacked(layer: nat, proj: Proj) | Other(name: string)

  datatype Tensor = Scalar(value: int) | Stack(parts: seq<Tensor>)

  function Shape(t: Tensor): seq<nat> {
    match t
    case Scalar(_) => []
    case Stack(parts) => [|parts|] + (if parts == [] then [] else Shape(parts[0]))
  }

  type Dict = map<Key, Tensor>

  datatype Error = MissingKey | NothingToStack | UnequalShapes | IndexOutOfRange

  // ------------------------------------------------------------------ one projection of one layer

  predicate HasExperts(dict: Dict, layer: nat, proj: Proj, experts: nat) {
    forall j :: 0 <= j < experts ==> Expert(layer, j, proj) in dict
  }

  function ExpertKeys(layer: nat, proj: Proj, experts: nat): set<Key> {
    set j | 0 <= j < experts :: Expert(layer, j, proj)
  }

  function Weights(dict: Dict, layer: nat, proj: Proj, experts: nat): seq<Tensor>
    requires HasExperts(dict, layer, proj, experts)
  {
    seq(experts, j requires 0 <= j < experts => dict[Expert(layer, j, proj)])
  }

  predicate EqualShapes(ts: seq<Tensor>) {
    forall j :: 0 <= j < |ts| ==> Shape(ts[j]) == Shape(ts[0])
  }

  function MergeOne(dict: Dict, layer: nat, proj: Proj, experts: nat): Result<Dict, Error> {
    if !HasExperts(dict, layer, proj, experts) then Err(MissingKey)
    else if experts == 0 then Err(NothingToStack)
    else if !EqualShapes(Weights(dict, layer, proj, experts)) then Err(UnequalShapes)
    else Ok((dict - ExpertKeys(layer, proj, experts))[Stacked(layer, proj) := Stack(Weights(dict, layer, proj,
        experts))])
  }

  // Pop the experts' weights one by one and stack them.
  method StackExperts(dict: Dict, layer: nat, proj: Proj, experts: nat) returns (r: Result<Dict, Error>)
    ensures r == MergeOne(dict, layer, proj, experts)
  {
    var rest := dict;
    var weights: seq<Tensor> := [];
    for j := 0 to experts
      invariant HasExperts(dict, layer, proj, j)
      invariant rest == dict - ExpertKeys(layer, proj, j)
      invariant weights == Weights(dict, layer, proj, j)
    {
      var key := Expert(layer, j, proj);
      if key !in rest {
        return Err(MissingKey);
      }
      weights := weights + [rest[key]];
      rest := rest - {key};
    }
    if experts == 0 {
      return Err(NothingToStack);
    }
    var equal := true;
    for j := 0 to experts
      invariant equal <==> forall k :: 0 <= k < j ==> Shape(weights[k]) == Shape(weights[0])
    {
      equal := equal && Shape(weights[j]) == Shape(weights[0]);
    }
    if !equal {
      return Err(UnequalShapes);
    }
    r := Ok(rest[Stacked(layer, proj) := Stack(weights)]);
  }

  function Parts(t: Tensor): seq<Tensor> {
    match t
    case Scalar(_) => []
    case Stack(parts) => parts
  }

  function SplitOne(dict: Dict, layer: nat, proj: Proj, experts: nat): Result<Dict, Error> {
    var key := Stacked(layer, proj);
    if key !in dict then Ok(dict)
    else if |Parts(dict[key])| < experts then Err(IndexOutOfRange)
    else Ok((dict - {key}) + ExpertMap(Parts(dict[key]), layer, proj, experts))
  }

  function ExpertMap(parts: seq<Tensor>, layer: nat, proj: Proj, experts: nat): Dict
    requires experts <= |parts|
  {
    map k | k in ExpertKeys(layer, proj, experts) :: parts[k.expert]
  }

  method UnstackExperts(dict: Dict, layer: nat, proj: Proj, experts: nat) returns (r: Result<Dict, Error>)
    ensures r == SplitOne(dict, layer, proj, experts)
  {
    var key := Stacked(layer, proj);
    if key !in dict {
      return Ok(dict);
    }
    var parts := Parts(dict[key]);
    var out := dict - {key};
    for j := 0 to experts
      invariant j <= |parts|
      invariant out == (dict - {key}) + ExpertMap(parts, layer, proj, j)
    {
      if j >= |parts| {
        return Err(IndexOutOfRange);
      }
      out := out[Expert(layer, j, proj) := parts[j]];
    }
    r := Ok(out);
  }

  // ------------------------------------------------------------------ all layers

  function Pairs(from: nat, layers: nat): seq<(nat, Proj)>
    decreases layers - from
  {
    if from >= layers then [] else [(from, Gate), (from, Up), (from, Down)] + Pairs(from + 1, layers)
  }

  function MergeAll(dict: Dict, pairs: seq<(nat, Proj)>, experts: nat): Result<Dict, Error>
    decreases |pairs|
  {
    if pairs == [] then Ok(dict)
    else
      var next :- MergeOne(dict, pairs[0].0, pairs[0].1, experts);
      MergeAll(next, pairs[1..], experts)
  }

  function SplitAll(dict: Dict, pairs: seq<(nat, Proj)>, experts: nat): Result<Dict, Error>
    decreases |pairs|
  {
    if pairs == [] then Ok(dict)
    else
      var next :- SplitOne(dict, pairs[0].0, pairs[0].1, experts);
      SplitAll(next, pairs[1..], experts)
  }

  lemma PairsStep(from: nat, layers: nat)
    requires from < layers
    ensures var p := Pairs(from, layers);
            |p| >= 3 && p[0] == (from, Gate) && p[1..][0] == (from, Up) && p[1..][1..][0] == (from, Down)
            && p[1..][1..][1..] == Pairs(from + 1, layers)
  {
  }

  // The loop of moe_merge.
  method MergeExperts(dict: Dict, firstLayer: nat, layers: nat, experts: nat) returns (r: Result<Dict, Error>)
    ensures r == MergeAll(dict, Pairs(firstLayer, layers), experts)
  {
    var now := dict;
    var i := firstLayer;
    while i < layers
      invariant MergeAll(dict, Pairs(firstLayer, layers), experts) == MergeAll(now, Pairs(i, layers), experts)
    {
      PairsStep(i, layers);
      ghost var pairs := Pairs(i, layers);
      r := StackExperts(now, i, Gate, experts);
      if r.Err? {
        return;
      }
      assert MergeAll(now, pairs, experts) == MergeAll(r.value, pairs[1..], experts);
      now := r.value;
      r := StackExperts(now, i, Up, experts);
      if r.Err? {
        return;
      }
      assert MergeAll(now, pairs[1..], experts) == MergeAll(r.value, pairs[1..][1..], experts);
      now := r.value;
      r := StackExperts(now, i, Down, experts);
      if r.Err? {
        return;
      }
      now := r.value;
      i := i + 1;
    }
    r := Ok(now);
  }

  // The loop of moe_split.
  method SplitExperts(dict: Dict, layers: nat, experts: nat) returns (r: Result<Dict, Error>)
    ensures r == SplitAll(dict, Pairs(0, layers), experts)
  {
    var now := dict;
    for i := 0 to layers
      invariant SplitAll(dict, Pairs(0, layers), experts) == SplitAll(now, Pairs(i, layers), experts)
    {
      PairsStep(i, layers);
      ghost var pairs := Pairs(i, layers);
      r := UnstackExperts(now, i, Gate, experts);
      if r.Err? {
        return;
      }
      assert SplitAll(now, pairs, experts) == SplitAll(r.value, pairs[1..], experts);
      now := r.value;
      r := UnstackExperts(now, i, Up, experts);
      if r.Err? {
        return;
      }
      assert SplitAll(now, pairs[1..], experts) == SplitAll(r.value, pairs[1..][1..], experts);
      now := r.value;
      r := UnstackExperts(now, i, Down, experts);
      if r.Err? {
        return;
      }
      now := r.value;
    }
    r := Ok(now);
  }

  // ------------------------------------------------------------------ key by key

  predicate Distinct(pairs: seq<(nat, Proj)>) {
    forall a, b :: 0 <= a < b < |pairs| ==> pairs[a] != pairs[b]
  }

  lemma {:induction false} PairsAre(from: nat, layers: nat)
    ensures Distinct(Pairs(from, layers))
    ensures forall i, p :: (i, p) in Pairs(from, layers) <==> from <= i < layers
    decreases layers - from
  {
    if from < layers {
      PairsAre(from + 1, layers);
      var head, rest := [(from, Gate), (from, Up), (from, Down)], Pairs(from + 1, layers);
      forall i, p
        ensures (i, p) in head + rest <==> from <= i < layers
      {
        assert (i, p) in head <==> i == from by {
          match p
          case Gate => assert head[0] == (from, Gate);
          case Up => assert head[1] == (from, Up);
          case Down => assert head[2] == (from, Down);
        }
      }
      forall a, b | 0 <= a < b < |head + rest|
        ensures (head + rest)[a] != (head + rest)[b]
      {
        if a < 3 <= b {
          assert (head + rest)[b] == rest[b - 3] && rest[b - 3] in rest;
        }
      }
    }
  }

  // What merging leaves at each key.
  ghost predicate MergedAt(dict: Dict, pairs: seq<(nat, Proj)>, experts: nat, out: Dict, k: Key) {
    match k
    case Expert(i, j, p) =>
      if (i, p) in pairs && j < experts then k !in out
      else (k in out <==> k in dict) && (k in dict ==> out[k] == dict[k])
    case Stacked(i, p) =>
      if (i, p) in pairs then
        && HasExperts(dict, i, p, experts) && k in out && out[k].Stack? && |out[k].parts| == experts
        && forall j :: 0 <= j < experts ==> out[k].parts[j] == dict[Expert(i, j, p)]
      else (k in out <==> k in dict) && (k in dict ==> out[k] == dict[k])
    case Other(_) => (k in out <==> k in dict) && (k in dict ==> out[k] == dict[k])
  }

  lemma {:induction false} MergePointwise(dict: Dict, pairs: seq<(nat, Proj)>, experts: nat)
    requires Distinct(pairs) && MergeAll(dict, pairs, experts).Ok?
    ensures forall k :: MergedAt(dict, pairs, experts, MergeAll(dict, pairs, experts).value, k)
    decreases |pairs|
  {
    if pairs != [] {
      var (i0, p0) := pairs[0];
      var next := MergeOne(dict, i0, p0, experts).value;
      var rest := pairs[1..];
      MergePointwise(next, rest, experts);
      var out := MergeAll(dict, pairs, experts).value;
      forall k
        ensures MergedAt(dict, pairs, experts, out, k)
      {
        assert MergedAt(next, rest, experts, out, k);
        assert forall x :: x in pairs <==> x == (i0, p0) || x in rest;
      }
    }
  }

  // Merging succeeds exactly when there are experts, and every layer has all of them, in equal shapes.
  lemma MergeExactlyWhen(dict: Dict, pairs: seq<(nat, Proj)>, experts: nat)
    requires Distinct(pairs)
    ensures MergeAll(dict, pairs, experts).Ok? <==>
            forall x :: x in pairs ==>
              && experts > 0
              && (forall j :: 0 <= j < experts ==> Expert(x.0, j, x.1) in dict)
              && (forall j :: 0 <= j < experts ==>
                    Shape(dict[Expert(x.0, j, x.1)]) == Shape(dict[Expert(x.0, 0, x.1)]))
  {
    MergeSucceeds(dict, pairs, experts);
    hide MergeAll;
    forall x | x in pairs && HasExperts(dict, x.0, x.1, experts) && experts > 0
      ensures EqualShapes(Weights(dict, x.0, x.1, experts)) <==>
              forall j :: 0 <= j < experts ==>
                Shape(dict[Expert(x.0, j, x.1)]) == Shape(dict[Expert(x.0, 0, x.1)])
    {
      var ts := Weights(dict, x.0, x.1, experts);
      assert forall j :: 0 <= j < experts ==> ts[j] == dict[Expert(x.0, j, x.1)];
    }
  }

  lemma {:induction false} MergeSucceeds(dict: Dict, pairs: seq<(nat, Proj)>, experts: nat)
    requires Distinct(pairs)
    ensures MergeAll(dict, pairs, experts).Ok? <==>
            forall x :: x in pairs ==>
              HasExperts(dict, x.0, x.1, experts) && experts > 0 && EqualShapes(Weights(dict, x.0, x.1, experts))
    decreases |pairs|
  {
    if pairs != [] {
      var (i0, p0) := pairs[0];
      var rest := pairs[1..];
      assert forall x :: x in pairs <==> x == pairs[0] || x in rest;
      var one := MergeOne(dict, i0, p0, experts);
      if one.Ok? {
        MergeSucceeds(one.value, rest, experts);
        forall x | x in rest
          ensures HasExperts(one.value, x.0, x.1, experts) <==> HasExperts(dict, x.0, x.1, experts)
          ensures HasExperts(dict, x.0, x.1, experts) ==>
                    Weights(one.value, x.0, x.1, experts) == Weights(dict, x.0, x.1, experts)
        {
          assert x != pairs[0];
          forall j | 0 <= j < experts
            ensures Expert(x.0, j, x.1) in one.value <==> Expert(x.0, j, x.1) in dict
            ensures Expert(x.0, j, x.1) in dict ==> one.value[Expert(x.0, j, x.1)] == dict[Expert(x.0, j, x.1)]
          {
          }
        }
      }
    }
  }

  // Stacking n tensors of one shape adds a dimension of n in front.
  lemma StackedShape(ts: seq<Tensor>)
    requires ts != [] && EqualShapes(ts)
    ensures forall j :: 0 <= j < |ts| ==> Shape(Stack(ts)) == [|ts|] + Shape(ts[j])
    ensures forall v :: Shape(Scalar(v)) == []
  {
  }

  // What splitting leaves at each key.
  ghost predicate SplitAt(dict: Dict, pairs: seq<(nat, Proj)>, experts: nat, out: Dict, k: Key) {
    match k
    case Expert(i, j, p) =>
      if (i, p) in pairs && Stacked(i, p) in dict && j < experts then
        && dict[Stacked(i, p)].Stack? && j < |dict[Stacked(i, p)].parts|
        && k in out && out[k] == dict[Stacked(i, p)].parts[j]
      else (k in out <==> k in dict) && (k in dict ==> out[k] == dict[k])
    case Stacked(i, p) =>
      if (i, p) in pairs then k !in out else (k in out <==> k in dict) && (k in dict ==> out[k] == dict[k])
    case Other(_) => (k in out <==> k in dict) && (k in dict ==> out[k] == dict[k])
  }

  ghost predicate EnoughParts(dict: Dict, pairs: seq<(nat, Proj)>, experts: nat) {
    forall x :: x in pairs && Stacked(x.0, x.1) in dict ==> |Parts(dict[Stacked(x.0, x.1)])| >= experts
  }

  lemma {:induction false} SplitPointwise(dict: Dict, pairs: seq<(nat, Proj)>, experts: nat)
    requires Distinct(pairs)
    ensures SplitAll(dict, pairs, experts).Ok? <==> EnoughParts(dict, pairs, experts)
    ensures SplitAll(dict, pairs, experts).Ok? ==>
              forall k :: SplitAt(dict, pairs, experts, SplitAll(dict, pairs, experts).value, k)
    decreases |pairs|
  {
    if pairs != [] {
      var (i0, p0) := pairs[0];
      var rest := pairs[1..];
      assert forall x :: x in pairs <==> x == pairs[0] || x in rest;
      var one := SplitOne(dict, i0, p0, experts);
      if one.Ok? {
        SplitPointwise(one.value, rest, experts);
        forall x | x in rest
          ensures Stacked(x.0, x.1) in one.value <==> Stacked(x.0, x.1) in dict
          ensures Stacked(x.0, x.1) in dict ==> one.value[Stacked(x.0, x.1)] == dict[Stacked(x.0, x.1)]
        {
          assert x != pairs[0];
        }
        if SplitAll(dict, pairs, experts).Ok? {
          var out := SplitAll(dict, pairs, experts).value;
          forall k
            ensures SplitAt(dict, pairs, experts, out, k)
          {
            assert SplitAt(one.value, rest, experts, out, k);
          }
        }
      }
    }
  }

  // After any merge, splitting restores the original dictionary exactly when that had no stacked
  // projection of its own in any layer.
  lemma RoundTripExactlyWhen(dict: Dict, firstLayer: nat, layers: nat, experts: nat)
    requires MergeAll(dict, Pairs(firstLayer, layers), experts).Ok?
    ensures SplitAll(MergeAll(dict, Pairs(firstLayer, layers), experts).value, Pairs(0, layers), experts) == Ok(dict)
            <==> forall i, p :: 0 <= i < layers ==> Stacked(i, p) !in dict
  {
    var some, all := Pairs(firstLayer, layers), Pairs(0, layers);
    PairsAre(firstLayer, layers);
    PairsAre(0, layers);
    MergePointwise(dict, some, experts);
    var merged := MergeAll(dict, some, experts).value;
    SplitPointwise(merged, all, experts);
    var out := SplitAll(merged, all, experts);
    if forall i, p :: 0 <= i < layers ==> Stacked(i, p) !in dict {
      forall x | x in all && Stacked(x.0, x.1) in merged
        ensures |Parts(merged[Stacked(x.0, x.1)])| >= experts
      {
        assert MergedAt(dict, some, experts, merged, Stacked(x.0, x.1));
      }
      forall k
        ensures k in out.value <==> k in dict
        ensures k in dict ==> out.value[k] == dict[k]
      {
        RestoredAt(dict, some, all, experts, merged, out.value, firstLayer, layers, k);
      }
      assert out.value == dict;
    } else {
      var i, p :| 0 <= i < layers && Stacked(i, p) in dict;
      assert (i, p) in all;
      assert out.Ok? ==> SplitAt(merged, all, experts, out.value, Stacked(i, p));
    }
  }

  lemma RestoredAt(dict: Dict, some: seq<(nat, Proj)>, all: seq<(nat, Proj)>, experts: nat, merged: Dict, out: Dict,
                   firstLayer: nat, layers: nat, k: Key)
    requires forall i, p :: 0 <= i < layers ==> Stacked(i, p) !in dict
    requires forall i, p :: (i, p) in some <==> firstLayer <= i < layers
    requires forall i, p :: (i, p) in all <==> 0 <= i < layers
    requires forall x :: MergedAt(dict, some, experts, merged, x)
    requires SplitAt(merged, all, experts, out, k)
    ensures k in out <==> k in dict
    ensures k in dict ==> out[k] == dict[k]
  {
    assert MergedAt(dict, some, experts, merged, k);
    match k
    case Expert(i, j, p) => assert MergedAt(dict, some, experts, merged, Stacked(i, p));
    case _ =>
  }

  // Keys that belong to no expert keep their tensors through both conversions.
  lemma OtherKeysUntouched(dict: Dict, firstLayer: nat, layers: nat, experts: nat, name: string)
    requires MergeAll(dict, Pairs(firstLayer, layers), experts).Ok?
    ensures var merged := MergeAll(dict, Pairs(firstLayer, layers), experts).value;
            var split := SplitAll(merged, Pairs(0, layers), experts);
            (Other(name) in merged <==> Other(name) in dict)
            && (Other(name) in dict ==> merged[Other(name)] == dict[Other(name)])
            && (split.Ok? ==> (Other(name) in split.value <==> Other(name) in dict)
                              && (Other(name) in dict ==> split.value[Other(name)] == dict[Other(name)]))
  {
    PairsAre(firstLayer, layers);
    PairsAre(0, layers);
    MergePointwise(dict, Pairs(firstLayer, layers), experts);
    var merged := MergeAll(dict, Pairs(firstLayer, layers), experts).value;
    SplitPointwise(merged, Pairs(0, layers), experts);
    assert MergedAt(dict, Pairs(firstLayer, layers), experts, merged, Other(name));
    var split := SplitAll(merged, Pairs(0, layers), experts);
    assert split.Ok? ==> SplitAt(merged, Pairs(0, layers), experts, split.value, Other(name));
  }
}
