/** How many layers each pipeline rank gets, and where they sit in the whole model. */
module PipelineShards {
  import opened Wrappers
  import opened Arithmetic

  datatype Error = TooFewLayers | TooFewRanks | NoStrategy | WrongSum

  function Repeat(x: int, n: nat): seq<int> {
    seq(n, _ => x)
  }

  lemma {:induction false} SumConcat(a: seq<int>, b: seq<int>)
    ensures Sum(a + b) == Sum(a) + Sum(b)
  {
    if a == [] {
      assert a + b == b;
    } else {
      assert (a + b)[1..] == a[1..] + b;
      SumConcat(a[1..], b);
    }
  }

  lemma {:induction false} SumRepeat(x: int, n: nat)
    ensures Sum(Repeat(x, n)) == x * n
  {
    if n > 0 {
      SumRepeat(x, n - 1);
      assert Repeat(x, n)[1..] == Repeat(x, n - 1) && x * n == x * (n - 1) + x;
      hide Repeat;
    }
  }

  // ------------------------------------------------------------------ the search

  // The strategy with `middle` layers on each of the ranks between the first and the last.
  function Strategy(layers: int, ranks: nat, middle: int): seq<int>
    requires ranks >= 3
  {
    var ends := layers - middle * (ranks - 2);
    [ends / 2] + Repeat(middle, ranks - 2) + [ends - ends / 2]
  }

  predicate Feasible(layers: int, ranks: int, middle: int) {
    var ends := layers - middle * (ranks - 2);
    0 < ends / 2 <= middle && 0 < ends - ends / 2 <= middle
  }

  function Distance(layers: int, ranks: int, middle: int): int {
    var d := (layers - middle * (ranks - 2)) / 2 - middle;
    if d < 0 then -d else d
  }

  function Ceiling(layers: int, ranks: int): int
    requires ranks > 0
  {
    (layers + ranks - 1) / ranks
  }

  // Feasible sizes lie between the ceiling of the average and a bound from the two outer ranks.
  lemma FeasibleRange(layers: int, ranks: int, middle: int)
    requires 3 <= ranks <= layers
    ensures Feasible(layers, ranks, middle) <==> Ceiling(layers, ranks) <= middle && middle * (ranks - 2) <= layers - 2
  {
    var ends := layers - middle * (ranks - 2);
    assert Feasible(layers, ranks, middle) <==> 2 <= ends <= 2 * middle;
    assert ends <= 2 * middle <==> layers <= middle * ranks;
    CeilingLeast(layers, ranks, middle);
  }

  lemma CeilingLeast(layers: int, ranks: int, m: int)
    requires ranks > 0
    ensures layers <= m * ranks <==> Ceiling(layers, ranks) <= m
  {
    var c := Ceiling(layers, ranks);
    assert layers + ranks - 1 == c * ranks + (layers + ranks - 1) % ranks;
    if c <= m {
      ScaleMonotone(c, m, ranks);
    } else {
      ScaleMonotone(m + 1, c, ranks);
    }
  }

  // The distance between outer and middle ranks grows with the middle size.
  lemma DistanceGrows(layers: int, ranks: int, a: int, b: int)
    requires 3 <= ranks && a < b && Feasible(layers, ranks, a) && Feasible(layers, ranks, b)
    ensures Distance(layers, ranks, a) < Distance(layers, ranks, b)
  {
    ScaleMonotone(a, b, ranks - 2);
  }

  method GetDynamicPipelineShards(layers: int, ranks: int) returns (r: Result<seq<int>, Error>)
    ensures r == Shards(layers, ranks)
  {
    if layers < ranks {
      return Err(TooFewLayers);
    }
    if ranks < 1 {
      return Err(TooFewRanks);
    }
    if ranks == 1 {
      return Ok([layers]);
    }
    if ranks == 2 {
      return Ok([layers / 2, layers - layers / 2]);
    }
    var middleSize := ranks - 2;
    var best: Option<(seq<int>, int)> := None;  // the first strategy of least distance so far
    var c := Ceiling(layers, ranks);
    for middle := 0 to layers
      invariant best.Some? ==> c < middle && Feasible(layers, ranks, c)
                               && best.value == (Strategy(layers, ranks, c), Distance(layers, ranks, c))
      invariant best.None? ==> forall m :: 0 <= m < middle ==> !Feasible(layers, ranks, m)
    {
      var ends := layers - middle * middleSize;
      var first := ends / 2;
      var last := ends - ends / 2;
      if 0 < first <= middle && 0 < last <= middle {
        assert Feasible(layers, ranks, middle);
        FeasibleRange(layers, ranks, middle);
        FeasibleRange(layers, ranks, c);
        ScaleMonotone(c, middle, ranks - 2);
        var distance := if first < middle then middle - first else first - middle;
        if best.None? || distance < best.value.1 {
          if c < middle {
            DistanceGrows(layers, ranks, c, middle);
          }
          best := Some(([first] + Repeat(middle, middleSize) + [last], distance));
        }
      }
    }
    CeilingBelow(layers, ranks);
    if best.None? {
      return Err(NoStrategy);
    }
    StrategySum(layers, ranks, c);
    if Sum(best.value.0) != layers {
      return Err(WrongSum);
    }
    r := Ok(best.value.0);
  }

  lemma CeilingBelow(layers: int, ranks: int)
    requires 3 <= ranks <= layers
    ensures 0 < Ceiling(layers, ranks) < layers
  {
    CeilingLeast(layers, ranks, layers - 1);
    CeilingLeast(layers, ranks, 0);
    ScaleMonotone(3, ranks, layers - 1);
  }

  lemma StrategySum(layers: int, ranks: nat, middle: int)
    requires ranks >= 3
    ensures Sum(Strategy(layers, ranks, middle)) == layers
  {
    var ends := layers - middle * (ranks - 2);
    SumOfEnds(ends / 2, middle, ranks - 2, ends - ends / 2);
    hide Sum, Repeat;
  }

  lemma SumOfEnds(first: int, middle: int, n: nat, last: int)
    ensures Sum([first] + Repeat(middle, n) + [last]) == first + middle * n + last
  {
    SumRepeat(middle, n);
    SumConcat([first] + Repeat(middle, n), [last]);
    SumConcat([first], Repeat(middle, n));
    SumSmall(first, 0);
    SumSmall(last, 0);
    hide Sum, Repeat;
  }

  // The closed form of the search: the smallest feasible middle size is the ceiling of the average.
  function Shards(layers: int, ranks: int): Result<seq<int>, Error> {
    if layers < ranks then Err(TooFewLayers)
    else if ranks < 1 then Err(TooFewRanks)
    else if ranks == 1 then Ok([layers])
    else if ranks == 2 then Ok([layers / 2, layers - layers / 2])
    else
      var c := Ceiling(layers, ranks);
      if Feasible(layers, ranks, c) then Ok(Strategy(layers, ranks, c)) else Err(NoStrategy)
  }

  // ------------------------------------------------------------------ when it returns

  lemma CeilingByDivision(layers: int, ranks: int)
    requires ranks > 0
    ensures Ceiling(layers, ranks) == layers / ranks + (if layers % ranks == 0 then 0 else 1)
  {
    var q, m := layers / ranks, layers % ranks;
    assert layers == q * ranks + m;
    var c := if m == 0 then q else q + 1;
    CeilingLeast(layers, ranks, c);
    CeilingLeast(layers, ranks, c - 1);
    assert (q + 1) * ranks == q * ranks + ranks;
    assert (q - 1) * ranks == q * ranks - ranks;
  }

  // The shards exist exactly for one or two ranks, for an even split, or when the ceiling split leaves
  // at least one layer for both outer ranks.
  lemma ReturnsExactlyWhen(layers: int, ranks: int)
    requires layers >= ranks >= 1
    ensures Shards(layers, ranks).Ok? <==>
            ranks <= 2 || layers % ranks == 0 || ranks <= layers % ranks + 2 * (layers / ranks)
  {
    if ranks >= 3 {
      EndsByDivision(layers, ranks);
      FeasibleRange(layers, ranks, Ceiling(layers, ranks));
      QuotientAtLeastOne(layers, ranks);
      hide Feasible, Ceiling;
    }
  }

  lemma QuotientAtLeastOne(layers: int, ranks: int)
    requires layers >= ranks >= 1
    ensures layers / ranks >= 1
  {
    assert layers == (layers / ranks) * ranks + layers % ranks;
  }

  lemma FailsWith(layers: int, ranks: int)
    ensures Shards(layers, ranks) == Err(TooFewLayers) <==> layers < ranks
    ensures Shards(layers, ranks) == Err(TooFewRanks) <==> layers >= ranks && ranks < 1
    ensures Shards(layers, ranks) == Err(NoStrategy) <==> layers >= ranks >= 1 && Shards(layers, ranks).Err?
  {
  }

  // ------------------------------------------------------------------ what it returns

  predicate Split(shards: seq<int>, layers: int, ranks: int) {
    |shards| == ranks && Sum(shards) == layers
  }

  predicate Bounded(shards: seq<int>, m: int) {
    forall i :: 0 <= i < |shards| ==> shards[i] <= m
  }

  lemma {:induction false} SumBounded(shards: seq<int>, m: int)
    requires Bounded(shards, m)
    ensures Sum(shards) <= m * |shards|
  {
    if shards != [] {
      SumBounded(shards[1..], m);
      assert |shards| == |shards[1..]| + 1;
      assert m * |shards| == m * |shards[1..]| + m;
      hide Bounded;
      assert shards[0] <= m by { BoundedFirst(shards, m); }
    }
  }

  lemma BoundedFirst(shards: seq<int>, m: int)
    requires Bounded(shards, m) && shards != []
    ensures shards[0] <= m
  {
  }

  lemma SumSmall(a: int, b: int)
    ensures Sum([a]) == a && Sum([a, b]) == a + b
  {
    assert [a][1..] == [];
    assert Sum([b]) == b + Sum([b][1..]);
    assert [a, b][1..] == [b];
  }

  // All stages positive, nothing lost, and the busiest rank as light as any split allows.
  lemma ShardsAreOptimal(layers: int, ranks: int)
    requires layers >= ranks >= 1 && Shards(layers, ranks).Ok?
    ensures var shards := Shards(layers, ranks).value;
            var c := Ceiling(layers, ranks);
            Split(shards, layers, ranks) && (forall i :: 0 <= i < ranks ==> 0 < shards[i] <= c) && c in shards
    ensures forall other, m :: Split(other, layers, ranks) && Bounded(other, m) ==> Ceiling(layers, ranks) <= m
  {
    var c := Ceiling(layers, ranks);
    if ranks >= 3 {
      var shards := Strategy(layers, ranks, c);
      StrategySum(layers, ranks, c);
      assert shards[1] == c;
    } else {
      CeilingByDivision(layers, ranks);
      var shards := Shards(layers, ranks).value;
      SumSmall(shards[0], shards[ranks - 1]);
      assert c == shards[ranks - 1];
    }
    forall other, m | Split(other, layers, ranks) && Bounded(other, m)
      ensures c <= m
    {
      SumBounded(other, m);
      CeilingLeast(layers, ranks, m);
    }
  }

  // Which rank gets what: the ranks between the ends the ceiling of the average, and the last rank as many layers as
  // the first or one more.
  predicate ByRank(shards: seq<int>, layers: int, ranks: int) {
    && |shards| == ranks >= 2
    && 0 <= shards[ranks - 1] - shards[0] <= 1
    && (forall i :: 0 < i < ranks - 1 ==> shards[i] == Ceiling(layers, ranks))
  }

  // No other split is like that.
  lemma ShardsByRank(layers: int, ranks: int, shards: seq<int>)
    requires ranks >= 2 && Shards(layers, ranks).Ok?
    ensures Shards(layers, ranks) == Ok(shards) <==> ByRank(shards, layers, ranks) && Sum(shards) == layers
  {
    var c := Ceiling(layers, ranks);
    var ends := layers - c * (ranks - 2);
    if ranks >= 3 {
      StrategySum(layers, ranks, c);
    } else {
      SumSmall(layers / 2, layers - layers / 2);
    }
    if ByRank(shards, layers, ranks) && Sum(shards) == layers {
      var first, last := shards[0], shards[ranks - 1];
      EndsAndMiddle(shards, c);
      SumOfEnds(first, c, ranks - 2, last);
      hide Sum;
      assert first == ends / 2 && last == ends - ends / 2;
      assert ranks == 2 ==> shards == [first, last];
    }
  }

  lemma EndsAndMiddle(shards: seq<int>, c: int)
    requires |shards| >= 2 && forall i :: 0 < i < |shards| - 1 ==> shards[i] == c
    ensures shards == [shards[0]] + Repeat(c, |shards| - 2) + [shards[|shards| - 1]]
  {
  }

  predicate Uniform(shards: seq<int>) {
    forall i, j :: 0 <= i < |shards| && 0 <= j < |shards| ==> shards[i] - shards[j] <= 1
  }

  lemma EndsByDivision(layers: int, ranks: int)
    requires layers >= ranks >= 3
    ensures var q, m, c := layers / ranks, layers % ranks, Ceiling(layers, ranks);
            layers - c * (ranks - 2) == if m == 0 then 2 * q else 2 * q + 2 + m - ranks
  {
    var q, m := layers / ranks, layers % ranks;
    CeilingByDivision(layers, ranks);
    assert layers == q * ranks + m;
    assert (q + 1) * (ranks - 2) == q * ranks - 2 * q + ranks - 2;
    assert q * (ranks - 2) == q * ranks - 2 * q;
  }

  lemma StrategyUniform(layers: int, ranks: nat, c: int)
    requires ranks >= 3 && Feasible(layers, ranks, c)
    ensures Uniform(Strategy(layers, ranks, c)) <==> c - (layers - c * (ranks - 2)) / 2 <= 1
  {
    var shards := Strategy(layers, ranks, c);
    var ends := layers - c * (ranks - 2);
    assert shards[0] == ends / 2 && shards[1] == c && shards[ranks - 1] == ends - ends / 2;
    forall i | 0 <= i < ranks
      ensures ends / 2 <= shards[i] <= c
    {
    }
  }

  // "As uniform as possible" holds only of these splits; otherwise the outer ranks give up several layers
  // each although some split has stages that differ by at most one.
  lemma UniformExactlyWhen(layers: int, ranks: int)
    requires layers >= ranks >= 1 && Shards(layers, ranks).Ok?
    ensures Uniform(Shards(layers, ranks).value) <==>
            ranks <= 2 || layers % ranks == 0 || layers % ranks >= ranks - 2
  {
    if ranks >= 3 {
      EndsByDivision(layers, ranks);
      CeilingByDivision(layers, ranks);
      StrategyUniform(layers, ranks, Ceiling(layers, ranks));
      hide Uniform, Strategy, Ceiling;
    }
  }

  lemma NotAsUniformAsPossible()
    ensures Shards(21, 5) == Ok([3, 5, 5, 5, 3]) && Split([5, 4, 4, 4, 4], 21, 5) && Uniform([5, 4, 4, 4, 4])
  {
    assert Ceiling(21, 5) == 5;
    assert Strategy(21, 5, 5) == [3, 5, 5, 5, 3];
    assert Sum([5, 4, 4, 4, 4]) == 5 + Sum([4, 4, 4, 4]);
    assert Sum([4, 4, 4, 4]) == 4 + Sum([4, 4, 4]);
  }
}
