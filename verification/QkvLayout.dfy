/** The fused attention and feed-forward weights of a Megatron checkpoint, as sequences of rows:
    interleaving query, key and value rows group by group, and taking them apart again. */
module QkvLayout {
  import opened Wrappers
  import opened Arithmetic
  import opened TorchRows

  datatype Error = BadHeads | BadShape | BadView | NoChunks

  datatype Qkv<T> = Qkv(q: seq<T>, k: seq<T>, v: seq<T>)

  // chunk.split([a, b, b]) for every chunk, the parts appended to the three lists.
  function SplitChunks<T>(chunks: seq<seq<T>>, a: nat, b: nat): Result<Qkv<T>, Error> {
    if chunks == [] then Ok(Qkv([], [], []))
    else if |chunks[0]| != a + b + b then Err(BadShape)
    else
      var rest :- SplitChunks(chunks[1..], a, b);
      Ok(Qkv(chunks[0][..a] + rest.q, chunks[0][a..a + b] + rest.k, chunks[0][a + b..] + rest.v))
  }

  // ------------------------------------------------------------------ the merger

  method SplitLoop<T>(chunks: seq<seq<T>>, a: nat, b: nat, init: Qkv<T>) returns (r: Result<Qkv<T>, Error>)
    ensures r == Appended(init, SplitChunks(chunks, a, b))
  {
    var q, k, v := init.q, init.k, init.v;
    ghost var whole := SplitChunks(chunks, a, b);
    for i := 0 to |chunks|
      invariant Appended(init, whole) == Appended(Qkv(q, k, v), SplitChunks(chunks[i..], a, b))
    {
      assert chunks[i..][0] == chunks[i] && chunks[i..][1..] == chunks[i + 1..];
      if |chunks[i]| != a + b + b {
        return Err(BadShape);
      }
      ghost var rest := SplitChunks(chunks[i + 1..], a, b);
      if rest.Ok? {
        assert q + (chunks[i][..a] + rest.value.q) == (q + chunks[i][..a]) + rest.value.q;
        assert k + (chunks[i][a..a + b] + rest.value.k) == (k + chunks[i][a..a + b]) + rest.value.k;
        assert v + (chunks[i][a + b..] + rest.value.v) == (v + chunks[i][a + b..]) + rest.value.v;
      }
      q := q + chunks[i][..a];
      k := k + chunks[i][a..a + b];
      v := v + chunks[i][a + b..];
    }
    assert Qkv(q + [], k + [], v + []) == Qkv(q, k, v);
    r := Ok(Qkv(q, k, v));
  }

  function Appended<T>(init: Qkv<T>, r: Result<Qkv<T>, Error>): Result<Qkv<T>, Error> {
    if r.Err? then r else Ok(Qkv(init.q + r.value.q, init.k + r.value.k, init.v + r.value.v))
  }

  // The row counts [kv * perGroup // groups, kv // groups] of one chunk.
  function QuerySize(kv: nat, perGroup: nat, groups: nat): nat
    requires groups > 0
  {
    Div(kv * perGroup, groups)
  }

  // The q, k, v branch of _split_tensors.
  function SplitQkv<T>(tensor: seq<T>, heads: nat, groups: nat): Result<Qkv<T>, Error> {
    if groups == 0 || heads % groups != 0 then Err(BadHeads)
    else
      var perGroup := Div(heads, groups);
      if |tensor| % (perGroup + 2) != 0 then Err(BadShape)
      else
        var kv := Div(|tensor|, perGroup + 2);
        SplitChunks(Chunk(tensor, groups), QuerySize(kv, perGroup, groups), Div(kv, groups))
  }

  method SplitTensors<T>(tensor: seq<T>, heads: nat, groups: nat) returns (r: Result<Qkv<T>, Error>)
    ensures r == SplitQkv(tensor, heads, groups)
  {
    if groups == 0 || heads % groups != 0 {
      return Err(BadHeads);
    }
    var perGroup := Div(heads, groups);
    if |tensor| % (perGroup + 2) != 0 {
      return Err(BadShape);
    }
    var kv := Div(|tensor|, perGroup + 2);
    r := SplitLoop(Chunk(tensor, groups), QuerySize(kv, perGroup, groups), Div(kv, groups), Qkv([], [], []));
    ghost var whole := SplitChunks(Chunk(tensor, groups), QuerySize(kv, perGroup, groups), Div(kv, groups));
    if whole.Ok? {
      assert Qkv([] + whole.value.q, [] + whole.value.k, [] + whole.value.v) == whole.value;
    }
  }

  // ------------------------------------------------------------------ the converter

  // `groups` groups of a query rows, b key rows and b value rows.
  predicate Sized<T>(x: Qkv<T>, groups: nat, a: nat, b: nat) {
    |x.q| == groups * a && |x.k| == groups * b && |x.v| == groups * b
  }

  lemma SizedStep<T>(x: Qkv<T>, groups: nat, a: nat, b: nat)
    requires groups > 0 && Sized(x, groups, a, b)
    ensures a <= |x.q| && b <= |x.k| && b <= |x.v|
    ensures Sized(Qkv(x.q[a..], x.k[b..], x.v[b..]), groups - 1, a, b)
  {
    Peel(groups, a);
    Peel(groups, b);
  }

  // q.view([groups, a, -1]), k and v.view([groups, b, -1]), concatenated along dim 1 and flattened.
  function Interleave<T>(x: Qkv<T>, groups: nat, a: nat, b: nat): (r: seq<T>)
    requires Sized(x, groups, a, b)
    decreases groups
  {
    if groups == 0 then []
    else
      SizedStep(x, groups, a, b);
      x.q[..a] + x.k[..b] + x.v[..b]
      + Interleave(Qkv(x.q[a..], x.k[b..], x.v[b..]), groups - 1, a, b)
  }

  function ConvertQkv<T>(x: Qkv<T>, heads: nat, groups: nat, headDim: nat): Result<seq<T>, Error> {
    if groups == 0 then Err(BadHeads)
    else
      var a := Div(headDim * heads, groups);
      if |x.q| != groups * a || |x.k| != groups * headDim || |x.v| != groups * headDim then Err(BadView)
      else Ok(Interleave(x, groups, a, headDim))
  }

  // ------------------------------------------------------------------ round trips

  // The arithmetic of the split sizes, for n groups of (perGroup + 2) * d rows.
  lemma EvenSizes(n: nat, perGroup: nat, d: nat)
    requires n > 0
    ensures var rows := n * ((perGroup + 2) * d);
            rows % (perGroup + 2) == 0 && Div(rows, perGroup + 2) == n * d
            && QuerySize(n * d, perGroup, n) == d * perGroup && Div(n * d, n) == d
            && Div(rows + n - 1, n) == (perGroup + 2) * d
  {
    Cancel(perGroup + 2, n * d);
    assert n * ((perGroup + 2) * d) == (n * d) * (perGroup + 2);
    Cancel(n, d * perGroup);
    assert (n * d) * perGroup == (d * perGroup) * n;
    Cancel(n, d);
    assert n * d == d * n;
    Quotient(n * ((perGroup + 2) * d) + n - 1, n, (perGroup + 2) * d, n - 1);
  }

  lemma SplitHead<T>(head: seq<T>, t: seq<T>, a: nat, b: nat)
    requires a + b + b > 0 && |head| == a + b + b
    ensures var whole, rest := SplitChunks(Pieces(head + t, a + b + b), a, b), SplitChunks(Pieces(t, a + b + b), a, b);
            whole == if rest.Err? then rest
                     else Ok(Qkv(head[..a] + rest.value.q, head[a..a + b] + rest.value.k, head[a + b..] + rest.value.v))
  {
    PiecesAppend(head, t, a + b + b, 1);
    var pieces := Pieces(head + t, a + b + b);
    assert pieces[0] == head && pieces[1..] == Pieces(t, a + b + b);
  }

  lemma HeadBack<T>(x: Qkv<T>, a: nat, b: nat)
    requires a <= |x.q| && b <= |x.k| && b <= |x.v|
    ensures var head := x.q[..a] + x.k[..b] + x.v[..b];
            x == Qkv(head[..a] + x.q[a..], head[a..a + b] + x.k[b..], head[a + b..] + x.v[b..])
  {
    var head := x.q[..a] + x.k[..b] + x.v[..b];
    assert head[..a] == x.q[..a] && head[a..a + b] == x.k[..b] && head[a + b..] == x.v[..b];
    assert x.q[..a] + x.q[a..] == x.q && x.k[..b] + x.k[b..] == x.k && x.v[..b] + x.v[b..] == x.v;
  }

  // Taking the interleaved rows apart gives back all three parts.
  lemma {:induction false} InterleaveSplit<T>(x: Qkv<T>, groups: nat, a: nat, b: nat)
    requires Sized(x, groups, a, b) && a + b + b > 0
    ensures SplitChunks(Pieces(Interleave(x, groups, a, b), a + b + b), a, b) == Ok(x)
    decreases groups
  {
    if groups > 0 {
      SizedStep(x, groups, a, b);
      var head := x.q[..a] + x.k[..b] + x.v[..b];
      var rest := Qkv(x.q[a..], x.k[b..], x.v[b..]);
      InterleaveSplit(rest, groups - 1, a, b);
      SplitHead(head, Interleave(rest, groups - 1, a, b), a, b);
      HeadBack(x, a, b);
      hide SplitChunks, Pieces, Sized;
    } else {
      assert x == Qkv([], [], []);
      SplitNothing<T>(a, b);
    }
  }

  lemma {:induction false} InterleaveSize<T>(x: Qkv<T>, groups: nat, a: nat, b: nat)
    requires Sized(x, groups, a, b)
    ensures |Interleave(x, groups, a, b)| == groups * (a + b + b)
    decreases groups
  {
    if groups > 0 {
      SizedStep(x, groups, a, b);
      Peel(groups, a + b + b);
      InterleaveSize(Qkv(x.q[a..], x.k[b..], x.v[b..]), groups - 1, a, b);
      hide Sized;
    }
  }

  lemma SplitNothing<T>(a: nat, b: nat)
    requires a + b + b > 0
    ensures SplitChunks<T>(Pieces([], a + b + b), a, b) == Ok(Qkv([], [], []))
  {
  }

  // And interleaving what was taken apart gives back the fused rows.
  lemma {:induction false} SplitInterleave<T>(t: seq<T>, groups: nat, a: nat, b: nat)
    requires a + b + b > 0 && |t| == groups * (a + b + b)
    ensures var r := SplitChunks(Pieces(t, a + b + b), a, b);
            r.Ok? && Sized(r.value, groups, a, b) && Interleave(r.value, groups, a, b) == t
    decreases groups
  {
    hide SplitChunks, Pieces, Interleave, Sized;
    if groups > 0 {
      var s := a + b + b;
      Peel(groups, s);
      var head, tail := t[..s], t[s..];
      assert t == head + tail;
      SplitHead(head, tail, a, b);
      SplitInterleave(tail, groups - 1, a, b);
      Reassembled(head, tail, SplitChunks(Pieces(tail, s), a, b).value, groups, a, b);
    } else {
      assert t == [];
      SplitNothing<T>(a, b);
      NothingInterleaved<T>(a, b);
    }
  }

  lemma NothingInterleaved<T>(a: nat, b: nat)
    ensures Sized<T>(Qkv([], [], []), 0, a, b) && Interleave<T>(Qkv([], [], []), 0, a, b) == []
  {
  }

  // The parts of one group in front of the parts of the others.
  lemma Reassembled<T>(head: seq<T>, tail: seq<T>, rest: Qkv<T>, groups: nat, a: nat, b: nat)
    requires groups > 0 && |head| == a + b + b
    requires Sized(rest, groups - 1, a, b) && Interleave(rest, groups - 1, a, b) == tail
    ensures var x := Qkv(head[..a] + rest.q, head[a..a + b] + rest.k, head[a + b..] + rest.v);
            Sized(x, groups, a, b) && Interleave(x, groups, a, b) == head + tail
  {
    var x := Qkv(head[..a] + rest.q, head[a..a + b] + rest.k, head[a + b..] + rest.v);
    Peel(groups, a);
    Peel(groups, b);
    assert Sized(x, groups, a, b);
    hide Sized;
    assert x.q[..a] == head[..a] && x.k[..b] == head[a..a + b] && x.v[..b] == head[a + b..];
    assert Qkv(x.q[a..], x.k[b..], x.v[b..]) == rest;
    assert head == head[..a] + head[a..a + b] + head[a + b..];
  }

  lemma {:induction false} SplitEmpties<T>(n: nat)
    ensures SplitChunks<T>(Empties(n), 0, 0) == Ok(Qkv([], [], []))
  {
    if n > 0 {
      SplitEmpties<T>(n - 1);
      assert Empties<T>(n)[0] == [] && Empties<T>(n)[1..] == Empties(n - 1);
      var none: seq<T> := [];
      assert none[..0] + none == none && none[0..0] + none == none && none[0..] + none == none;
    }
  }

  // On a whole number of rows per head the split works on pieces of (perGroup + 2) * d rows.
  lemma SplitOnEven<T>(t: seq<T>, heads: nat, groups: nat, d: nat)
    requires groups > 0 && heads % groups == 0 && |t| == groups * ((Div(heads, groups) + 2) * d)
    ensures var a := d * Div(heads, groups);
            SplitQkv(t, heads, groups) ==
            if d == 0 then Ok(Qkv([], [], [])) else SplitChunks(Pieces(t, a + d + d), a, d)
  {
    var perGroup := Div(heads, groups);
    EvenSizes(groups, perGroup, d);
    assert (perGroup + 2) * d == d * perGroup + d + d;
    if t == [] {
      if d > 0 {
        ScaleMonotone(1, groups, (perGroup + 2) * d);
        ScaleMonotone(1, perGroup + 2, d);
      }
      SplitEmpties<T>(groups);
    }
  }

  lemma ConvertSizes<T>(x: Qkv<T>, heads: nat, groups: nat, d: nat)
    requires groups > 0 && heads % groups == 0 && ConvertQkv(x, heads, groups, d).Ok?
    ensures Sized(x, groups, d * Div(heads, groups), d)
    ensures ConvertQkv(x, heads, groups, d).value == Interleave(x, groups, d * Div(heads, groups), d)
    ensures |Interleave(x, groups, d * Div(heads, groups), d)| == groups * ((Div(heads, groups) + 2) * d)
  {
    GroupedDim(heads, groups, d);
    InterleaveSize(x, groups, d * Div(heads, groups), d);
    hide Interleave, ConvertQkv, Div;
    assert d * Div(heads, groups) + d + d == (Div(heads, groups) + 2) * d;
  }

  // Converter, then merger: the projections come back row for row.
  lemma ConvertThenSplit<T>(x: Qkv<T>, heads: nat, groups: nat, headDim: nat)
    requires groups > 0 && heads % groups == 0 && ConvertQkv(x, heads, groups, headDim).Ok?
    ensures SplitQkv(ConvertQkv(x, heads, groups, headDim).value, heads, groups) == Ok(x)
  {
    hide Div, SplitQkv, SplitChunks, Pieces, ConvertQkv, Interleave, Sized;
    ConvertSizes(x, heads, groups, headDim);
    var a := headDim * Div(heads, groups);
    if headDim > 0 {
      InterleaveSplit(x, groups, a, headDim);
    } else {
      EmptyInterleave(x, groups);
    }
    SplitOnEven(Interleave(x, groups, a, headDim), heads, groups, headDim);
  }

  lemma GroupedDim(heads: nat, groups: nat, headDim: nat)
    requires groups > 0 && heads % groups == 0
    ensures Div(headDim * heads, groups) == headDim * Div(heads, groups)
    ensures heads == groups * Div(heads, groups)
  {
    var perGroup := Div(heads, groups);
    assert heads == perGroup * groups;
    assert headDim * heads == (headDim * perGroup) * groups;
    Cancel(groups, headDim * perGroup);
  }

  lemma {:induction false} EmptyInterleave<T>(x: Qkv<T>, groups: nat)
    requires Sized(x, groups, 0, 0)
    ensures Interleave(x, groups, 0, 0) == [] && x == Qkv([], [], [])
    decreases groups
  {
    if groups > 0 {
      EmptyInterleave(Qkv(x.q[0..], x.k[0..], x.v[0..]), groups - 1);
    }
  }

  // A head count and the rows it takes: |t| == groups * (perGroup + 2) * d exactly when the unit divides it.
  lemma Unit(heads: nat, groups: nat, rows: nat)
    requires groups > 0 && heads % groups == 0
    ensures var perGroup, unit := Div(heads, groups), heads + groups + groups;
            unit == groups * (perGroup + 2)
            && (rows % unit == 0 ==> rows == groups * ((perGroup + 2) * Div(rows, unit)))
            && (forall d: nat :: rows == d * unit ==> rows % unit == 0)
  {
    var perGroup, unit := Div(heads, groups), heads + groups + groups;
    GroupedDim(heads, groups, 1);
    assert groups * (perGroup + 2) == groups * perGroup + groups + groups;
    if rows % unit == 0 {
      var d := Div(rows, unit);
      assert rows == d * unit + rows % unit;
      assert d * (groups * (perGroup + 2)) == groups * ((perGroup + 2) * d);
    }
    forall d: nat | rows == d * unit
      ensures rows % unit == 0
    {
      Cancel(unit, d);
    }
  }

  // Which fused weights can be taken apart: those with the same number of rows for every one of the
  // `heads` query heads and `groups` key and value heads.
  lemma SplitExactlyWhen<T>(t: seq<T>, heads: nat, groups: nat)
    ensures SplitQkv(t, heads, groups).Ok? <==>
            groups > 0 && heads % groups == 0 && |t| % (heads + groups + groups) == 0
  {
    if groups > 0 && heads % groups == 0 {
      Unit(heads, groups, |t|);
      if |t| % (heads + groups + groups) == 0 {
        SplitThenConvert(t, heads, groups);
      } else if SplitQkv(t, heads, groups).Ok? {
        SplitNeedsEven(t, heads, groups);
      }
    }
  }

  lemma DivFloor(x: nat, y: nat)
    requires y > 0
    ensures y * Div(x, y) <= x && y * Div(x + y - 1, y) >= x
  {
    assert x == y * (x / y) + x % y;
    assert x + y - 1 == y * ((x + y - 1) / y) + (x + y - 1) % y;
  }

  lemma TightSizes(rows: nat, groups: nat, perGroup: nat, kv: nat, a: nat, b: nat)
    requires rows == kv * (perGroup + 2)
    requires groups * a <= kv * perGroup && groups * b <= kv
    requires groups * (a + b + b) >= rows
    ensures rows == b * (groups * (perGroup + 2))
  {
    assert kv * (perGroup + 2) == kv * perGroup + kv + kv;
    assert groups * (a + b + b) == groups * a + groups * b + groups * b;
    assert groups * b == kv;
    assert b * (groups * (perGroup + 2)) == (groups * b) * (perGroup + 2);
  }

  // If the split of a non-empty tensor works, its first chunk has the size of one group.
  lemma FirstChunkFits<T>(t: seq<T>, groups: nat, a: nat, b: nat)
    requires groups > 0 && t != [] && SplitChunks(Chunk(t, groups), a, b).Ok?
    ensures groups * (a + b + b) >= |t|
  {
    CeilPositive(|t|, groups);
    DivFloor(|t|, groups);
    var size := Div(|t| + groups - 1, groups);
    assert |Pieces(t, size)[0]| == a + b + b;
    hide Div;
    if |t| <= size {
      ScaleMonotone(1, groups, |t|);
    }
  }

  lemma SplitNeedsEven<T>(t: seq<T>, heads: nat, groups: nat)
    requires groups > 0 && heads % groups == 0 && SplitQkv(t, heads, groups).Ok?
    ensures |t| % (heads + groups + groups) == 0
  {
    if t != [] {
      hide Div, SplitChunks, Chunk;
      var perGroup := Div(heads, groups);
      var kv := Div(|t|, perGroup + 2);
      FirstChunkFits(t, groups, QuerySize(kv, perGroup, groups), Div(kv, groups));
      assert |t| % (perGroup + 2) == 0;
      hide SplitQkv, QuerySize;
      EvenRows(|t|, groups, perGroup);
      Unit(heads, groups, |t|);
    }
  }

  // A first chunk of full size leaves no rows over.
  lemma EvenRows(rows: nat, groups: nat, perGroup: nat)
    requires groups > 0 && rows % (perGroup + 2) == 0
    requires var kv := Div(rows, perGroup + 2);
             groups * (QuerySize(kv, perGroup, groups) + Div(kv, groups) + Div(kv, groups)) >= rows
    ensures rows == Div(Div(rows, perGroup + 2), groups) * (groups * (perGroup + 2))
  {
    var kv := Div(rows, perGroup + 2);
    ExactQuotient(rows, perGroup + 2);
    DivFloor(kv * perGroup, groups);
    DivFloor(kv, groups);
    hide Div;
    TightSizes(rows, groups, perGroup, kv, QuerySize(kv, perGroup, groups), Div(kv, groups));
  }

  lemma ExactQuotient(x: nat, y: nat)
    requires y > 0 && x % y == 0
    ensures x == Div(x, y) * y
  {
  }

  lemma ConvertOf<T>(x: Qkv<T>, heads: nat, groups: nat, d: nat)
    requires groups > 0 && heads % groups == 0
    requires Sized(x, groups, d * Div(heads, groups), d)
    ensures ConvertQkv(x, heads, groups, d) == Ok(Interleave(x, groups, d * Div(heads, groups), d))
  {
    GroupedDim(heads, groups, d);
  }

  // Merger, then converter: nothing is lost in the other direction either.
  lemma SplitThenConvert<T>(t: seq<T>, heads: nat, groups: nat)
    requires groups > 0 && heads % groups == 0 && |t| % (heads + groups + groups) == 0
    ensures var headDim := Div(|t|, heads + groups + groups);
            var r := SplitQkv(t, heads, groups);
            r.Ok? && ConvertQkv(r.value, heads, groups, headDim) == Ok(t)
  {
    var d := Div(|t|, heads + groups + groups);
    Unit(heads, groups, |t|);
    if d > 0 {
      SomeRowsConvert(t, heads, groups, d);
    } else {
      NoRowsConvert(t, heads, groups);
    }
  }

  lemma SomeRowsConvert<T>(t: seq<T>, heads: nat, groups: nat, d: nat)
    requires groups > 0 && heads % groups == 0 && d > 0 && |t| == groups * ((Div(heads, groups) + 2) * d)
    ensures SplitQkv(t, heads, groups).Ok?
    ensures ConvertQkv(SplitQkv(t, heads, groups).value, heads, groups, d) == Ok(t)
  {
    SplitOnEven(t, heads, groups, d);
    hide Div, SplitQkv, SplitChunks, Pieces, ConvertQkv, Interleave, Sized;
    PerGroupRows(Div(heads, groups), d);
    SplitInterleave(t, groups, d * Div(heads, groups), d);
    ConvertOf(SplitQkv(t, heads, groups).value, heads, groups, d);
  }

  lemma NoRowsConvert<T>(t: seq<T>, heads: nat, groups: nat)
    requires groups > 0 && heads % groups == 0 && |t| == groups * ((Div(heads, groups) + 2) * 0)
    ensures SplitQkv(t, heads, groups).Ok?
    ensures ConvertQkv(SplitQkv(t, heads, groups).value, heads, groups, 0) == Ok(t)
  {
    SplitOnEven(t, heads, groups, 0);
    NoRows<T>(groups, Div(heads, groups));
    ConvertOf<T>(Qkv([], [], []), heads, groups, 0);
    hide *;
  }

  lemma PerGroupRows(perGroup: nat, d: nat)
    ensures (perGroup + 2) * d == d * perGroup + d + d
  {
  }

  lemma NoRows<T>(groups: nat, perGroup: nat)
    ensures Sized<T>(Qkv([], [], []), groups, 0 * perGroup, 0)
    ensures Interleave<T>(Qkv([], [], []), groups, 0 * perGroup, 0) == []
  {
    EmptyInterleave<T>(Qkv([], [], []), groups);
  }

  // ------------------------------------------------------------------ where each row is

  // The g-th run of `size` rows.
  function Block<T>(s: seq<T>, size: nat, g: nat): seq<T> {
    if g * size + size <= |s| then s[g * size..g * size + size] else []
  }

  lemma LaterBlock<T>(first: seq<T>, rest: seq<T>, size: nat, g: nat)
    requires |first| == size
    ensures Block(first + rest, size, g) == if g == 0 then first else Block(rest, size, g - 1)
  {
    if g > 0 {
      Peel(g, size);
    }
  }

  // The groups follow one another, and in each the query rows come first, then the key rows, then the value rows.
  lemma {:induction false} InterleaveLayout<T>(x: Qkv<T>, groups: nat, a: nat, b: nat, g: nat)
    requires Sized(x, groups, a, b) && g < groups
    ensures Block(Interleave(x, groups, a, b), a + b + b, g) ==
            Block(x.q, a, g) + Block(x.k, b, g) + Block(x.v, b, g)
    decreases groups
  {
    SizedStep(x, groups, a, b);
    hide Interleave, Sized, Block;
    var rest := Qkv(x.q[a..], x.k[b..], x.v[b..]);
    var head := x.q[..a] + x.k[..b] + x.v[..b];
    InterleaveStep(x, groups, a, b);
    LaterBlock(head, Interleave(rest, groups - 1, a, b), a + b + b, g);
    BlockOf(x.q, a, g);
    BlockOf(x.k, b, g);
    BlockOf(x.v, b, g);
    if g > 0 {
      InterleaveLayout(rest, groups - 1, a, b, g - 1);
    }
  }

  lemma InterleaveStep<T>(x: Qkv<T>, groups: nat, a: nat, b: nat)
    requires groups > 0 && Sized(x, groups, a, b)
    ensures a <= |x.q| && b <= |x.k| && b <= |x.v|
    ensures Sized(Qkv(x.q[a..], x.k[b..], x.v[b..]), groups - 1, a, b)
    ensures Interleave(x, groups, a, b) ==
            x.q[..a] + x.k[..b] + x.v[..b] + Interleave(Qkv(x.q[a..], x.k[b..], x.v[b..]), groups - 1, a, b)
  {
    SizedStep(x, groups, a, b);
    hide Sized;
  }

  lemma BlockOf<T>(s: seq<T>, size: nat, g: nat)
    requires size <= |s|
    ensures Block(s, size, g) == if g == 0 then s[..size] else Block(s[size..], size, g - 1)
  {
    LaterBlock(s[..size], s[size..], size, g);
    assert s[..size] + s[size..] == s;
  }

  // Group g of a converted weight.
  lemma ConvertLayout<T>(x: Qkv<T>, heads: nat, groups: nat, headDim: nat, g: nat)
    requires groups > 0 && heads % groups == 0 && ConvertQkv(x, heads, groups, headDim).Ok? && g < groups
    ensures var a, b := headDim * Div(heads, groups), headDim;
            && |x.q| == groups * a && |x.k| == |x.v| == groups * b
            && Block(ConvertQkv(x, heads, groups, headDim).value, a + b + b, g) ==
               Block(x.q, a, g) + Block(x.k, b, g) + Block(x.v, b, g)
  {
    ConvertSizes(x, heads, groups, headDim);
    hide ConvertQkv, Block, Interleave;
    InterleaveLayout(x, groups, headDim * Div(heads, groups), headDim, g);
  }

  // And what the merger makes of group g of a fused weight.
  lemma SplitLayout<T>(t: seq<T>, heads: nat, groups: nat, g: nat)
    requires SplitQkv(t, heads, groups).Ok? && g < groups
    ensures heads % groups == 0
    ensures var x, b := SplitQkv(t, heads, groups).value, Div(|t|, heads + groups + groups);
            var a := b * Div(heads, groups);
            && |x.q| == groups * a && |x.k| == |x.v| == groups * b
            && Block(t, a + b + b, g) == Block(x.q, a, g) + Block(x.k, b, g) + Block(x.v, b, g)
  {
    SplitExactlyWhen(t, heads, groups);
    SplitThenConvert(t, heads, groups);
    hide SplitQkv, Block;
    ConvertLayout(SplitQkv(t, heads, groups).value, heads, groups, Div(|t|, heads + groups + groups), g);
  }

  // ------------------------------------------------------------------ merging tensor-parallel ranks

  // The q, k, v branch of _merge_across_tp: each rank holds groups / tp of the groups.
  function MergeRanks<T>(slices: seq<seq<T>>, perRank: nat, a: nat, b: nat): Result<Qkv<T>, Error>
    requires perRank > 0
  {
    if slices == [] then Ok(Qkv([], [], []))
    else
      var first :- SplitChunks(Chunk(slices[0], perRank), a, b);
      Appended(first, MergeRanks(slices[1..], perRank, a, b))
  }

  function MergeAcrossTp<T>(slices: seq<seq<T>>, heads: nat, groups: nat, tp: nat): Result<Qkv<T>, Error>
    requires tp > 0 && slices != []
  {
    if groups == 0 || heads % groups != 0 then Err(BadHeads)
    else
      var perGroup := Div(heads, groups);
      if |slices[0]| % (perGroup + 2) != 0 then Err(BadShape)
      else if Div(groups, tp) == 0 then Err(NoChunks)
      else
        var kv, perRank := Div(|slices[0]|, perGroup + 2), Div(groups, tp);
        MergeRanks(slices, perRank, QuerySize(kv, perGroup, perRank), Div(kv, perRank))
  }

  method MergeTensors<T>(slices: seq<seq<T>>, heads: nat, groups: nat, tp: nat) returns (r: Result<Qkv<T>, Error>)
    requires tp > 0 && slices != []
    ensures r == MergeAcrossTp(slices, heads, groups, tp)
  {
    if groups == 0 || heads % groups != 0 {
      return Err(BadHeads);
    }
    var perGroup := Div(heads, groups);
    if |slices[0]| % (perGroup + 2) != 0 {
      return Err(BadShape);
    }
    var kv, perRank := Div(|slices[0]|, perGroup + 2), Div(groups, tp);
    if perRank == 0 {
      return Err(NoChunks);
    }
    var a, b := QuerySize(kv, perGroup, perRank), Div(kv, perRank);
    var all := Qkv([], [], []);
    ghost var whole := MergeRanks(slices, perRank, a, b);
    for i := 0 to |slices|
      invariant Appended(Qkv([], [], []), whole) == Appended(all, MergeRanks(slices[i..], perRank, a, b))
    {
      assert slices[i..][0] == slices[i] && slices[i..][1..] == slices[i + 1..];
      ghost var first := SplitChunks(Chunk(slices[i], perRank), a, b);
      if first.Ok? {
        AppendedTwice(all, first.value, MergeRanks(slices[i + 1..], perRank, a, b));
      }
      var next := SplitLoop(Chunk(slices[i], perRank), a, b, all);
      if next.Err? {
        AppendedNone(whole);
        return Err(next.error);
      }
      all := next.value;
    }
    AppendedNone(whole);
    assert Qkv(all.q + [], all.k + [], all.v + []) == all;
    r := Ok(all);
  }

  lemma AppendedTwice<T>(x: Qkv<T>, y: Qkv<T>, r: Result<Qkv<T>, Error>)
    ensures Appended(x, Appended(y, r)) == Appended(Qkv(x.q + y.q, x.k + y.k, x.v + y.v), r)
  {
    if r.Ok? {
      assert x.q + (y.q + r.value.q) == (x.q + y.q) + r.value.q;
      assert x.k + (y.k + r.value.k) == (x.k + y.k) + r.value.k;
      assert x.v + (y.v + r.value.v) == (x.v + y.v) + r.value.v;
    }
  }

  lemma AppendedNone<T>(r: Result<Qkv<T>, Error>)
    ensures Appended(Qkv([], [], []), r) == r
  {
    if r.Ok? {
      assert [] + r.value.q == r.value.q && [] + r.value.k == r.value.k && [] + r.value.v == r.value.v;
    }
  }

  lemma {:induction false} SplitChunksAppend<T>(x: seq<seq<T>>, y: seq<seq<T>>, a: nat, b: nat)
    requires SplitChunks(x, a, b).Ok?
    ensures SplitChunks(x + y, a, b) == Appended(SplitChunks(x, a, b).value, SplitChunks(y, a, b))
  {
    if x == [] {
      assert x + y == y;
      AppendedNone(SplitChunks(y, a, b));
    } else {
      assert (x + y)[0] == x[0] && (x + y)[1..] == x[1..] + y;
      SplitChunksAppend(x[1..], y, a, b);
      AppendedTwice(Qkv(x[0][..a], x[0][a..a + b], x[0][a + b..]), SplitChunks(x[1..], a, b).value, SplitChunks(y, a,
          b));
    }
  }

  lemma {:induction false} MergeRanksIsSplit<T>(slices: seq<seq<T>>, perRank: nat, a: nat, b: nat)
    requires perRank > 0 && a + b + b > 0
    requires forall r :: 0 <= r < |slices| ==> |slices[r]| == perRank * (a + b + b)
    ensures MergeRanks(slices, perRank, a, b) == SplitChunks(Pieces(Concat(slices), a + b + b), a, b)
  {
    if slices == [] {
      SplitNothing<T>(a, b);
    } else {
      var s := a + b + b;
      ChunkEven(slices[0], perRank, s);
      SplitInterleave(slices[0], perRank, a, b);
      MergeRanksIsSplit(slices[1..], perRank, a, b);
      PiecesAppend(slices[0], Concat(slices[1..]), s, perRank);
      SplitChunksAppend(Pieces(slices[0], s), Pieces(Concat(slices[1..]), s), a, b);
    }
  }

  lemma {:induction false} MergeEmptyRanks<T>(slices: seq<seq<T>>, perRank: nat)
    requires perRank > 0 && forall r :: 0 <= r < |slices| ==> slices[r] == []
    ensures MergeRanks(slices, perRank, 0, 0) == Ok(Qkv([], [], [])) && Concat(slices) == []
  {
    if slices != [] {
      SplitEmpties<T>(perRank);
      MergeEmptyRanks(slices[1..], perRank);
      AppendedNone<T>(Ok(Qkv([], [], [])));
    }
  }

  lemma SliceSizes(heads: nat, groups: nat, tp: nat, d: nat, slice: nat)
    requires tp > 0 && groups > 0 && groups % tp == 0 && heads % groups == 0
    requires slice * tp == groups * ((Div(heads, groups) + 2) * d)
    ensures Div(groups, tp) > 0 && slice == Div(groups, tp) * ((Div(heads, groups) + 2) * d)
  {
    var perRank, size := Div(groups, tp), (Div(heads, groups) + 2) * d;
    assert groups == perRank * tp;
    assert perRank > 0;
    assert slice * tp == (perRank * size) * tp;
    Cancel(tp, slice);
    Cancel(tp, perRank * size);
  }

  lemma MergeOnEven<T>(slices: seq<seq<T>>, heads: nat, groups: nat, tp: nat, d: nat)
    requires tp > 0 && groups > 0 && heads % groups == 0 && slices != [] && Div(groups, tp) > 0
    requires |slices[0]| == Div(groups, tp) * ((Div(heads, groups) + 2) * d)
    ensures MergeAcrossTp(slices, heads, groups, tp) ==
            MergeRanks(slices, Div(groups, tp), d * Div(heads, groups), d)
  {
    EvenSizes(Div(groups, tp), Div(heads, groups), d);
    hide Div, QuerySize, MergeRanks;
  }

  // For every tensor-parallel size that divides the key-value heads, merging the ranks' slices is splitting
  // the whole tensor.
  lemma MergeIsSplitOfWhole<T>(slices: seq<seq<T>>, heads: nat, groups: nat, tp: nat)
    requires tp > 0 && groups > 0 && groups % tp == 0 && heads % groups == 0
    requires |slices| == tp && |Concat(slices)| % (heads + groups + groups) == 0
    requires forall r :: 0 <= r < tp ==> |slices[r]| == |slices[0]|
    ensures MergeAcrossTp(slices, heads, groups, tp) == SplitQkv(Concat(slices), heads, groups)
  {
    hide Div, SplitQkv, SplitChunks, Pieces, Chunk, Concat, MergeRanks, MergeAcrossTp;
    var whole := Concat(slices);
    var d := Div(|whole|, heads + groups + groups);
    Unit(heads, groups, |whole|);
    ConcatLength(slices, |slices[0]|);
    SliceSizes(heads, groups, tp, d, |slices[0]|);
    MergeOnEven(slices, heads, groups, tp, d);
    SplitOnEven(whole, heads, groups, d);
    MergeIsSplitOn(slices, Div(groups, tp), Div(heads, groups), d);
  }

  lemma MergeIsSplitOn<T>(slices: seq<seq<T>>, perRank: nat, perGroup: nat, d: nat)
    requires perRank > 0
    requires forall r :: 0 <= r < |slices| ==> |slices[r]| == perRank * ((perGroup + 2) * d)
    ensures MergeRanks(slices, perRank, d * perGroup, d) ==
            if d == 0 then Ok(Qkv([], [], []))
            else SplitChunks(Pieces(Concat(slices), d * perGroup + d + d), d * perGroup, d)
  {
    hide MergeRanks, SplitChunks, Pieces, Concat;
    assert (perGroup + 2) * d == d * perGroup + d + d;
    if d > 0 {
      MergeRanksIsSplit(slices, perRank, d * perGroup, d);
    } else {
      MergeEmptyRanks(slices, perRank);
    }
  }

  // For any tensor-parallel size: each rank takes its rows apart into as many groups as the quotient says, and
  // together they hold the groups of all ranks one after the other.
  lemma MergeInGroups<T>(slices: seq<seq<T>>, heads: nat, groups: nat, tp: nat, d: nat)
    requires tp > 0 && groups >= tp && heads % groups == 0 && slices != [] && d > 0
    requires forall r :: 0 <= r < |slices| ==> |slices[r]| == (groups / tp) * ((heads / groups + 2) * d)
    ensures var r, n, a := MergeAcrossTp(slices, heads, groups, tp), |slices| * (groups / tp), d * (heads / groups);
            r.Ok? && Sized(r.value, n, a, d) && Interleave(r.value, n, a, d) == Concat(slices)
  {
    hide Interleave, Concat, MergeAcrossTp, Sized;
    AtLeastOne(groups, tp);
    MergeGroups(slices, heads, groups, tp, groups / tp, heads / groups, d);
  }

  lemma AtLeastOne(groups: nat, tp: nat)
    requires groups >= tp > 0
    ensures groups / tp > 0
  {
  }

  lemma MergeGroups<T>(slices: seq<seq<T>>, heads: nat, groups: nat, tp: nat, perRank: nat, perGroup: nat, d: nat)
    requires tp > 0 && groups > 0 && heads % groups == 0 && slices != [] && d > 0
    requires perRank == Div(groups, tp) > 0 && perGroup == Div(heads, groups)
    requires forall r :: 0 <= r < |slices| ==> |slices[r]| == perRank * ((perGroup + 2) * d)
    ensures var r, n, a := MergeAcrossTp(slices, heads, groups, tp), |slices| * perRank, d * perGroup;
            r.Ok? && Sized(r.value, n, a, d) && Interleave(r.value, n, a, d) == Concat(slices)
  {
    hide Div, Interleave, Concat, MergeAcrossTp, MergeRanks, SplitChunks, Pieces, Sized;
    MergeOnEven(slices, heads, groups, tp, d);
    MergeIsSplitOn(slices, perRank, perGroup, d);
    ConcatLength(slices, perRank * ((perGroup + 2) * d));
    Regroup(|slices|, perRank, perGroup, d);
    SplitInterleave(Concat(slices), |slices| * perRank, d * perGroup, d);
  }

  lemma Regroup(n: nat, perRank: nat, perGroup: nat, d: nat)
    ensures n * (perRank * ((perGroup + 2) * d)) == (n * perRank) * (d * perGroup + d + d)
  {
    PerGroupRows(perGroup, d);
    var size := d * perGroup + d + d;
    assert n * (perRank * size) == (n * perRank) * size;
  }

  // ------------------------------------------------------------------ gate and up projections

  // gate, up = tensor.chunk(2).
  function SplitGateUp<T>(tensor: seq<T>): Result<(seq<T>, seq<T>), Error> {
    var parts := Chunk(tensor, 2);
    if |parts| != 2 then Err(NoChunks) else Ok((parts[0], parts[1]))
  }

  lemma SplitGateUpAt<T>(t: seq<T>)
    ensures SplitGateUp(t) == if |t| == 1 then Err(NoChunks) else Ok((t[..(|t| + 1) / 2], t[(|t| + 1) / 2..]))
  {
    if t == [] {
      assert Empties<T>(2) == [[], []] by {
        assert Empties<T>(1) == [[]] + Empties(0);
      }
    } else {
      var size := (|t| + 1) / 2;
      assert Chunk(t, 2) == Pieces(t, size);
      if |t| > 1 {
        assert Pieces(t[size..], size) == [t[size..]];
      } else {
        assert Pieces(t, size) == [t];
      }
    }
  }

  // The fused feed-forward weight comes apart where it was joined for equal halves, and one row later.
  lemma GateUpExactlyWhen<T>(gate: seq<T>, up: seq<T>)
    ensures SplitGateUp(gate + up) == Ok((gate, up)) <==> |gate| == |up| || (|gate| == |up| + 1 && up != [])
  {
    SplitGateUpAt(gate + up);
    if |gate| == (|gate| + |up| + 1) / 2 {
      assert (gate + up)[..|gate|] == gate && (gate + up)[|gate|..] == up;
    }
  }

  function MergeGateUp<T>(slices: seq<seq<T>>): Result<(seq<T>, seq<T>), Error> {
    if slices == [] then Ok(([], []))
    else
      var first :- SplitGateUp(slices[0]);
      var rest :- MergeGateUp(slices[1..]);
      Ok((first.0 + rest.0, first.1 + rest.1))
  }

  // Each rank holds its part of both; merging restores both.
  lemma {:induction false} MergeGateUpRanks<T>(gates: seq<seq<T>>, ups: seq<seq<T>>)
    requires |gates| == |ups| && forall r :: 0 <= r < |gates| ==> |gates[r]| == |ups[r]|
    ensures var slices := seq(|gates|, r requires 0 <= r < |gates| => gates[r] + ups[r]);
            MergeGateUp(slices) == Ok((Concat(gates), Concat(ups)))
  {
    if gates != [] {
      var slices := seq(|gates|, r requires 0 <= r < |gates| => gates[r] + ups[r]);
      MergeGateUpRanks(gates[1..], ups[1..]);
      var n := |gates| - 1;
      assert slices[1..] == seq(n, r requires 0 <= r < n => gates[1..][r] + ups[1..][r]);
      GateUpExactlyWhen(gates[0], ups[0]);
    }
  }
}
