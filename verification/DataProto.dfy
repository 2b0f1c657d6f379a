/** DataProto: a batch of rows kept as tensor columns and numpy columns.  Every operation transforms the two
    kinds with different primitives; here both are shown to move whole rows in the same way. */
module DataProto {
  import opened Wrappers
  import opened Arithmetic

  // ------------------------------------------------------------------ columns and rows

  type Columns<T> = map<string, seq<T>>

  // `rows` is what len() returns; without a TensorDict there are no tensor columns.
  datatype Proto<T> = Proto(rows: nat, hasBatch: bool, tensors: Columns<T>, others: Columns<T>) {
    predicate Valid() {
      && (forall k :: k in tensors ==> |tensors[k]| == rows)
      && (forall k :: k in others ==> |others[k]| == rows)
      && (!hasBatch ==> tensors == map[])
      && (!hasBatch && others == map[] ==> rows == 0)
    }

    predicate HasColumns() {
      tensors != map[] || others != map[]
    }

    // Something gives the rows a length.
    predicate Stored() {
      hasBatch || others != map[]
    }
  }

  // One row: the entry of every column at one position.
  datatype Row<T> = Row(tensors: map<string, T>, others: map<string, T>)

  function RowAt<T>(p: Proto<T>, i: nat): Row<T>
    requires p.Valid() && i < p.rows
  {
    Row(map k | k in p.tensors :: p.tensors[k][i], map k | k in p.others :: p.others[k][i])
  }

  function Rows<T>(p: Proto<T>): seq<Row<T>>
    requires p.Valid()
  {
    seq(p.rows, i requires 0 <= i < p.rows => RowAt(p, i))
  }

  predicate Within(ix: seq<nat>, n: nat) {
    forall j :: 0 <= j < |ix| ==> ix[j] < n
  }

  function Gather<T>(col: seq<T>, ix: seq<nat>): seq<T>
    requires Within(ix, |col|)
  {
    seq(|ix|, j requires 0 <= j < |ix| => col[ix[j]])
  }

  predicate SameColumns<T>(p: Proto<T>, q: Proto<T>) {
    q.hasBatch == p.hasBatch && q.tensors.Keys == p.tensors.Keys && q.others.Keys == p.others.Keys
  }

  // The rows of q are the rows of p at the positions ix.
  ghost predicate Moves<T>(p: Proto<T>, ix: seq<nat>, q: Proto<T>) {
    p.Valid() && q.Valid() && Within(ix, p.rows) && SameColumns(p, q) && Rows(q) == Gather(Rows(p), ix)
  }

  function MapColumns<T>(cols: Columns<T>, f: seq<T> -> seq<T>): Columns<T> {
    map k | k in cols :: f(cols[k])
  }

  function MapBoth<T>(p: Proto<T>, rows: nat, ft: seq<T> -> seq<T>, fo: seq<T> -> seq<T>): Proto<T> {
    Proto(rows, p.hasBatch, MapColumns(p.tensors, ft), MapColumns(p.others, fo))
  }

  ghost predicate Picks<T>(cols: Columns<T>, ix: seq<nat>, out: Columns<T>) {
    && out.Keys == cols.Keys
    && (forall k :: k in cols ==> Within(ix, |cols[k]|) && out[k] == Gather(cols[k], ix))
  }

  lemma MapPicks<T>(cols: Columns<T>, ix: seq<nat>, f: seq<T> -> seq<T>)
    requires forall k :: k in cols ==> Within(ix, |cols[k]|) && f(cols[k]) == Gather(cols[k], ix)
    ensures Picks(cols, ix, MapColumns(cols, f))
  {
  }

  // If both kinds of columns are picked at the same positions, whole rows are moved.
  lemma PicksMove<T>(p: Proto<T>, ix: seq<nat>, q: Proto<T>)
    requires p.Valid() && p.Stored() && Within(ix, p.rows)
    requires q.hasBatch == p.hasBatch && q.rows == |ix|
    requires Picks(p.tensors, ix, q.tensors) && Picks(p.others, ix, q.others)
    ensures Moves(p, ix, q) && q.Stored() && q.HasColumns() == p.HasColumns()
  {
    assert p.tensors == map[] <==> p.tensors.Keys == {};
    assert q.tensors == map[] <==> q.tensors.Keys == {};
    assert p.others == map[] <==> p.others.Keys == {};
    assert q.others == map[] <==> q.others.Keys == {};
    assert q.Valid();
    forall j | 0 <= j < |ix|
      ensures RowAt(q, j) == RowAt(p, ix[j])
    {
      assert RowAt(q, j).tensors == RowAt(p, ix[j]).tensors;
      assert RowAt(q, j).others == RowAt(p, ix[j]).others;
    }
  }

  lemma MapBothMoves<T>(p: Proto<T>, ix: seq<nat>, ft: seq<T> -> seq<T>, fo: seq<T> -> seq<T>)
    requires p.Valid() && p.Stored() && Within(ix, p.rows)
    requires forall col :: |col| == p.rows ==> ft(col) == Gather(col, ix) && fo(col) == Gather(col, ix)
    ensures var q := MapBoth(p, |ix|, ft, fo);
            Moves(p, ix, q) && q.Stored() && q.HasColumns() == p.HasColumns()
  {
    MapPicks(p.tensors, ix, ft);
    MapPicks(p.others, ix, fo);
    hide Moves, Picks, MapColumns;
    PicksMove(p, ix, MapBoth(p, |ix|, ft, fo));
  }

  // ------------------------------------------------------------------ the primitives, pair by pair

  datatype Error = OutOfRange | BadMask | BadRepeats | BadStep | NotDivisible | TooFewChunks | KeyMismatch | NoData
                 | DivisionByZero | NoSplitKeys

  // torch: index the source for every output position; numpy: repeat each element in turn.
  function TorchRepeatInterleave<T>(col: seq<T>, k: nat): seq<T> {
    seq(|col| * k, i requires 0 <= i < |col| * k => col[CellIndex(|col|, k, i)])
  }

  function CellIndex(n: nat, k: nat, i: nat): (c: nat)
    requires i < n * k
    ensures c < n && k > 0 && c == i / k
  {
    CellInRange(n, k, i);
    i / k
  }

  function Copies<T>(x: T, k: nat): seq<T> {
    seq(k, _ => x)
  }

  function NumpyRepeat<T>(col: seq<T>, k: nat): seq<T> {
    if col == [] then [] else Copies(col[0], k) + NumpyRepeat(col[1..], k)
  }

  lemma {:induction false} RepeatAgree<T>(col: seq<T>, k: nat)
    ensures NumpyRepeat(col, k) == TorchRepeatInterleave(col, k)
  {
    if col != [] {
      RepeatAgree(col[1..], k);
      RepeatStep(col, k);
    } else {
      assert |col| * k == 0;
    }
  }

  lemma RepeatStep<T>(col: seq<T>, k: nat)
    requires col != []
    ensures TorchRepeatInterleave(col, k) == Copies(col[0], k) + TorchRepeatInterleave(col[1..], k)
  {
    Peel(|col|, k);
    forall i | 0 <= i < |col| * k
      ensures TorchRepeatInterleave(col, k)[i] == (Copies(col[0], k) + TorchRepeatInterleave(col[1..], k))[i]
    {
      CellInRange(|col|, k, i);
      DivisionShift(i, k);
    }
  }

  // torch: expand to [k, n] and flatten; numpy: k copies end to end.
  function TorchExpand<T>(col: seq<T>, k: nat): seq<T> {
    seq(k * |col|, i requires 0 <= i < k * |col| => col[TileIndex(|col|, k, i)])
  }

  function TileIndex(n: nat, k: nat, i: nat): (c: nat)
    requires i < k * n
    ensures c < n && c == i % n
  {
    CellInRange(k, n, i);
    i % n
  }

  function NumpyTile<T>(col: seq<T>, k: nat): seq<T> {
    if k == 0 then [] else col + NumpyTile(col, k - 1)
  }

  lemma {:induction false} TileAgree<T>(col: seq<T>, k: nat)
    ensures NumpyTile(col, k) == TorchExpand(col, k)
  {
    if k > 0 {
      TileAgree(col, k - 1);
      var n := |col|;
      Peel(k, n);
      forall i | 0 <= i < k * n
        ensures NumpyTile(col, k)[i] == col[i % n]
      {
        CellInRange(k, n, i);
        DivisionShift(i, n);
      }
    }
  }

  // torch: an index tensor built from the repeats; numpy: element by element.
  function RepeatIndex(times: seq<nat>, from: nat): seq<nat> {
    if times == [] then [] else Copies(from, times[0]) + RepeatIndex(times[1..], from + 1)
  }

  function NumpyRepeatTimes<T>(col: seq<T>, times: seq<nat>): seq<T>
    requires |times| == |col|
  {
    if col == [] then [] else Copies(col[0], times[0]) + NumpyRepeatTimes(col[1..], times[1..])
  }

  lemma {:induction false} RepeatIndexWithin(times: seq<nat>, from: nat)
    ensures forall j :: 0 <= j < |RepeatIndex(times, from)| ==> from <= RepeatIndex(times, from)[j] < from + |times|
  {
    if times != [] {
      RepeatIndexWithin(times[1..], from + 1);
    }
  }

  lemma {:induction false} RepeatTimesAgree<T>(col: seq<T>, times: seq<nat>, from: nat)
    requires from + |times| == |col|
    ensures Within(RepeatIndex(times, from), |col|)
    ensures NumpyRepeatTimes(col[from..], times) == Gather(col, RepeatIndex(times, from))
  {
    RepeatIndexWithin(times, from);
    if times != [] {
      RepeatTimesAgree(col, times[1..], from + 1);
      assert col[from..][1..] == col[from + 1..];
    } else {
      assert col[from..] == [];
    }
  }

  // torch: the positions of the true entries; numpy: a filter.
  function Nonzero(mask: seq<bool>, from: nat): seq<nat> {
    if mask == [] then [] else (if mask[0] then [from] else []) + Nonzero(mask[1..], from + 1)
  }

  function NumpyMask<T>(col: seq<T>, mask: seq<bool>): seq<T>
    requires |mask| == |col|
  {
    if mask == [] then [] else (if mask[0] then [col[0]] else []) + NumpyMask(col[1..], mask[1..])
  }

  lemma {:induction false} MaskAgree<T>(col: seq<T>, mask: seq<bool>, from: nat)
    requires from + |mask| == |col|
    ensures Within(Nonzero(mask, from), |col|)
    ensures NumpyMask(col[from..], mask) == Gather(col, Nonzero(mask, from))
  {
    if mask != [] {
      MaskAgree(col, mask[1..], from + 1);
      assert col[from..][1..] == col[from + 1..];
      var rest := Nonzero(mask[1..], from + 1);
      assert Nonzero(mask, from) == (if mask[0] then [from] else []) + rest;
      if mask[0] {
        assert Gather(col, [from] + rest) == [col[from]] + Gather(col, rest);
      }
    } else {
      assert col[from..] == [];
    }
  }

  // ------------------------------------------------------------------ select, slice, repeat

  function Wrap(i: int, n: nat): int {
    if i < 0 then i + n else i
  }

  predicate AllInRange(idxs: seq<int>, n: nat) {
    forall j :: 0 <= j < |idxs| ==> 0 <= idxs[j] + n && idxs[j] < n
  }

  function Wrapped(idxs: seq<int>, n: nat): (ix: seq<nat>)
    requires AllInRange(idxs, n)
    ensures |ix| == |idxs| && Within(ix, n)
  {
    seq(|idxs|, j requires 0 <= j < |idxs| => Wrap(idxs[j], n) as nat)
  }

  function Pick<T>(col: seq<T>, ix: seq<nat>): seq<T> {
    if Within(ix, |col|) then Gather(col, ix) else []
  }

  function SelectIdxs<T>(p: Proto<T>, idxs: seq<int>): Result<Proto<T>, Error> {
    if !p.HasColumns() then Ok(p.(rows := if p.hasBatch then |idxs| else 0))
    else if !AllInRange(idxs, p.rows) then Err(OutOfRange)
    else
      var ix := Wrapped(idxs, p.rows);
      Ok(MapBoth(p, |ix|, (c: seq<T>) => Pick(c, ix), (c: seq<T>) => Pick(c, ix)))
  }

  function SelectMask<T>(p: Proto<T>, mask: seq<bool>): Result<Proto<T>, Error> {
    if !p.HasColumns() then Ok(p.(rows := if p.hasBatch then |Nonzero(mask, 0)| else 0))
    else if |mask| != p.rows then Err(BadMask)
    else
      Ok(MapBoth(p, |Nonzero(mask, 0)|, (c: seq<T>) => Pick(c, Nonzero(mask, 0)),
                 (c: seq<T>) => if |c| == |mask| then NumpyMask(c, mask) else []))
  }

  // The positions of a Python slice.
  function Clamp(i: int, n: nat): nat {
    if i < 0 then (if i + n < 0 then 0 else i + n) else if i > n then n else i
  }

  function Stride(lo: nat, hi: nat, step: nat): (ix: seq<nat>)
    requires step > 0
    ensures forall j :: 0 <= j < |ix| ==> lo <= ix[j] < hi
    decreases if lo < hi then hi - lo else 0
  {
    if lo >= hi then [] else [lo] + Stride(lo + step, hi, step)
  }

  function StrideDown(hi: int, lo: int, step: nat): (ix: seq<nat>)
    requires step > 0 && lo >= -1
    ensures forall j :: 0 <= j < |ix| ==> lo < ix[j] <= hi
    decreases if lo < hi then hi - lo else 0
  {
    if hi <= lo then [] else [hi] + StrideDown(hi - step, lo, step)
  }

  // With a negative step positions count from -1 instead of 0.
  function ClampDown(i: int, n: nat): (r: int)
    ensures -1 <= r < n || (n == 0 && r == -1)
  {
    if i < 0 then (if i + n < -1 then -1 else i + n) else if i >= n then n - 1 else i
  }

  function SliceIndex(n: nat, start: Option<int>, end: Option<int>, step: int): (ix: seq<nat>)
    requires step != 0
    ensures Within(ix, n)
  {
    if step > 0 then
      Stride(Clamp(if start.Some? then start.value else 0, n), Clamp(if end.Some? then end.value else n, n), step)
    else
      StrideDown(if start.Some? then ClampDown(start.value, n) else n - 1,
                 if end.Some? then ClampDown(end.value, n) else -1, -step)
  }

  // Tensors cannot be sliced backwards, numpy columns can.
  function Slice<T>(p: Proto<T>, start: Option<int>, end: Option<int>, step: int): Result<Proto<T>, Error> {
    if step == 0 || (p.hasBatch && step < 0) then Err(BadStep)
    else
      var ix := SliceIndex(p.rows, start, end, step);
      Ok(MapBoth(p, |ix|, (c: seq<T>) => Pick(c, ix), (c: seq<T>) => Pick(c, ix)))
  }

  function Repeat<T>(p: Proto<T>, times: nat, interleave: bool): Proto<T> {
    if interleave
    then MapBoth(p, p.rows * times, (c: seq<T>) => TorchRepeatInterleave(c, times),
                 (c: seq<T>) => NumpyRepeat(c, times))
    else MapBoth(p, p.rows * times, (c: seq<T>) => TorchExpand(c, times), (c: seq<T>) => NumpyTile(c, times))
  }

  // A single repeat count is broadcast by both libraries, but the batch size is taken from its sum.
  function SampleLevelRepeat<T>(p: Proto<T>, times: seq<nat>): Result<Proto<T>, Error> {
    if !p.HasColumns() then Ok(p.(rows := if p.hasBatch then Sum(times) else 0))
    else if |times| == p.rows then
      Ok(MapBoth(p, Sum(times), (c: seq<T>) => Pick(c, RepeatIndex(times, 0)),
                 (c: seq<T>) => if |c| == |times| then NumpyRepeatTimes(c, times) else []))
    else if |times| == 1 && (p.hasBatch ==> p.rows * times[0] == times[0]) then Ok(Repeat(p, times[0], true))
    else Err(BadRepeats)
  }

  function RepeatIx(n: nat, times: nat, interleave: bool): (ix: seq<nat>)
    ensures |ix| == n * times && Within(ix, n)
  {
    if interleave then seq(n * times, i requires 0 <= i < n * times => CellIndex(n, times, i))
    else
      assert n * times == times * n;
      seq(times * n, i requires 0 <= i < times * n => TileIndex(n, times, i))
  }

  lemma RepeatMoves<T>(p: Proto<T>, times: nat, interleave: bool)
    requires p.Valid() && p.Stored()
    ensures var q := Repeat(p, times, interleave);
            Moves(p, RepeatIx(p.rows, times, interleave), q) && q.Stored() && q.HasColumns() == p.HasColumns()
  {
    var ix := RepeatIx(p.rows, times, interleave);
    assert p.rows * times == times * p.rows;
    if interleave {
      var ft, fo := (c: seq<T>) => TorchRepeatInterleave(c, times), (c: seq<T>) => NumpyRepeat(c, times);
      forall col: seq<T> | |col| == p.rows
        ensures ft(col) == Gather(col, ix) && fo(col) == Gather(col, ix)
      {
        RepeatAgree(col, times);
      }
      MapBothMoves(p, ix, ft, fo);
    } else {
      var ft, fo := (c: seq<T>) => TorchExpand(c, times), (c: seq<T>) => NumpyTile(c, times);
      forall col: seq<T> | |col| == p.rows
        ensures ft(col) == Gather(col, ix) && fo(col) == Gather(col, ix)
      {
        TileAgree(col, times);
      }
      MapBothMoves(p, ix, ft, fo);
    }
  }

  lemma PickMoves<T>(p: Proto<T>, ix: seq<nat>)
    requires p.Valid() && p.Stored() && Within(ix, p.rows)
    ensures var q := MapBoth(p, |ix|, (c: seq<T>) => Pick(c, ix), (c: seq<T>) => Pick(c, ix));
            Moves(p, ix, q) && q.Stored() && q.HasColumns() == p.HasColumns()
  {
    var f := (c: seq<T>) => Pick(c, ix);
    MapBothMoves(p, ix, f, f);
  }

  lemma {:induction false} RepeatIndexSize(times: seq<nat>, from: nat)
    ensures |RepeatIndex(times, from)| == Sum(times)
  {
    if times != [] {
      RepeatIndexSize(times[1..], from + 1);
    }
  }

  lemma SampleRepeatMoves<T>(p: Proto<T>, times: seq<nat>)
    requires p.Valid() && p.HasColumns() && |times| == p.rows
    ensures SampleLevelRepeat(p, times).Ok? && Within(RepeatIndex(times, 0), p.rows)
    ensures Moves(p, RepeatIndex(times, 0), SampleLevelRepeat(p, times).value)
    ensures SampleLevelRepeat(p, times).value.HasColumns()
  {
    var ix := RepeatIndex(times, 0);
    RepeatIndexWithin(times, 0);
    RepeatIndexSize(times, 0);
    var ft, fo := (c: seq<T>) => Pick(c, RepeatIndex(times, 0)),
                  (c: seq<T>) => if |c| == |times| then NumpyRepeatTimes(c, times) else [];
    forall col: seq<T> | |col| == p.rows
      ensures ft(col) == Gather(col, ix) && fo(col) == Gather(col, ix)
    {
      RepeatTimesAgree(col, times, 0);
      assert col[0..] == col;
    }
    MapBothMoves(p, ix, ft, fo);
  }

  lemma MaskMoves<T>(p: Proto<T>, mask: seq<bool>)
    requires p.Valid() && p.HasColumns() && |mask| == p.rows
    ensures SelectMask(p, mask).Ok? && Within(Nonzero(mask, 0), p.rows)
    ensures Moves(p, Nonzero(mask, 0), SelectMask(p, mask).value) && SelectMask(p, mask).value.HasColumns()
  {
    var ix := Nonzero(mask, 0);
    var ft, fo := (c: seq<T>) => Pick(c, Nonzero(mask, 0)),
                  (c: seq<T>) => if |c| == |mask| then NumpyMask(c, mask) else [];
    MaskWithin(mask, 0);
    forall col: seq<T> | |col| == p.rows
      ensures ft(col) == Gather(col, ix) && fo(col) == Gather(col, ix)
    {
      MaskAgree(col, mask, 0);
      assert col[0..] == col;
    }
    MapBothMoves(p, ix, ft, fo);
  }

  lemma {:induction false} MaskWithin(mask: seq<bool>, from: nat)
    ensures Within(Nonzero(mask, from), from + |mask|)
  {
    if mask != [] {
      MaskWithin(mask[1..], from + 1);
    }
  }

  // ------------------------------------------------------------------ row by row

  lemma MovedRow<T>(p: Proto<T>, ix: seq<nat>, q: Proto<T>, i: nat)
    requires Moves(p, ix, q) && i < |ix|
    ensures q.rows == |ix| && ix[i] < p.rows && Rows(q)[i] == Rows(p)[ix[i]]
  {
    assert |Rows(q)| == q.rows && |Rows(p)| == p.rows;
    hide Rows;
  }

  // Interleaved, row i of the result is row i div k; otherwise row i mod n.
  lemma RepeatedRow<T>(p: Proto<T>, k: nat, i: nat)
    requires p.Valid() && i < p.rows * k
    ensures k > 0 && i / k < p.rows && i % p.rows < p.rows
    ensures var q := Repeat(p, k, true);
            q.Valid() && q.rows == p.rows * k && Rows(q)[i] == Rows(p)[i / k]
    ensures var q := Repeat(p, k, false);
            q.Valid() && q.rows == p.rows * k && Rows(q)[i] == Rows(p)[i % p.rows]
  {
    RepeatMoves(p, k, true);
    RepeatMoves(p, k, false);
    hide Repeat, Rows, MapBoth;
    RepeatIxAt(p.rows, k, i);
    hide RepeatIx;
    MovedRow(p, RepeatIx(p.rows, k, true), Repeat(p, k, true), i);
    MovedRow(p, RepeatIx(p.rows, k, false), Repeat(p, k, false), i);
  }

  lemma RepeatIxAt(n: nat, k: nat, i: nat)
    requires i < n * k
    ensures k > 0 && n > 0 && RepeatIx(n, k, true)[i] == i / k < n && RepeatIx(n, k, false)[i] == i % n
  {
    assert n * k == k * n;
    CellInRange(n, k, i);
    CellInRange(k, n, i);
  }

  lemma WrapModulo(i: int, n: nat)
    requires 0 - n <= i < n
    ensures Wrap(i, n) == i % n
  {
    var q, m := i / n, i % n;
    assert i == q * n + m;
    if q > 0 {
      ScaleMonotone(1, q, n);
    } else if q < -1 {
      ScaleMonotone(q, -2, n);
    }
  }

  // Indices count from the end when negative, and out of range otherwise.
  lemma SelectedRow<T>(p: Proto<T>, idxs: seq<int>, j: nat)
    requires p.Valid() && p.HasColumns() && j < |idxs|
    ensures SelectIdxs(p, idxs).Ok? <==> forall i :: 0 <= i < |idxs| ==> 0 - p.rows <= idxs[i] < p.rows
    ensures SelectIdxs(p, idxs).Ok? ==>
              var q := SelectIdxs(p, idxs).value;
              q.Valid() && q.rows == |idxs| && p.rows > 0 && Rows(q)[j] == Rows(p)[idxs[j] % p.rows]
  {
    SelectTakes(p, idxs);
    hide SelectIdxs, Rows;
    if SelectIdxs(p, idxs).Ok? {
      WrapModulo(idxs[j], p.rows);
      MovedRow(p, Wrapped(idxs, p.rows), SelectIdxs(p, idxs).value, j);
    }
  }

  lemma SelectTakes<T>(p: Proto<T>, idxs: seq<int>)
    requires p.Valid() && p.HasColumns()
    ensures SelectIdxs(p, idxs).Ok? <==> AllInRange(idxs, p.rows)
    ensures SelectIdxs(p, idxs).Ok? ==>
              var q := SelectIdxs(p, idxs).value;
              q.Valid() && q.rows == |idxs| && Moves(p, Wrapped(idxs, p.rows), q)
  {
    hide Wrapped;
    if AllInRange(idxs, p.rows) {
      PickMoves(p, Wrapped(idxs, p.rows));
    }
  }

  // A mask keeps the positions at which it is true, in order.
  lemma {:induction false} NonzeroIs(mask: seq<bool>, from: nat)
    ensures forall k :: k in Nonzero(mask, from) <==> from <= k < from + |mask| && mask[k - from]
    ensures forall a, b :: 0 <= a < b < |Nonzero(mask, from)| ==> Nonzero(mask, from)[a] < Nonzero(mask, from)[b]
  {
    if mask != [] {
      NonzeroIs(mask[1..], from + 1);
      var rest := Nonzero(mask[1..], from + 1);
      assert Nonzero(mask, from) == (if mask[0] then [from] else []) + rest;
      assert forall k :: k in rest ==> k > from;
      assert forall a :: 0 <= a < |rest| ==> rest[a] in rest;
    }
  }

  // The copies of row i take as many places as its count says, behind those of all earlier rows.
  lemma {:induction false} RepeatIndexAt(times: seq<nat>, from: nat, i: nat, at: nat)
    requires i < |times| && Sum(times[..i]) <= at < Sum(times[..i]) + times[i]
    ensures at < |RepeatIndex(times, from)| && RepeatIndex(times, from)[at] == from + i
  {
    var rest := RepeatIndex(times[1..], from + 1);
    assert RepeatIndex(times, from) == Copies(from, times[0]) + rest;
    if i > 0 {
      assert times[..i][0] == times[0] && times[..i][1..] == times[1..][..i - 1];
      RepeatIndexAt(times[1..], from + 1, i - 1, at - times[0]);
    }
    hide RepeatIndex;
  }

  lemma SampledRow<T>(p: Proto<T>, times: seq<nat>, i: nat, at: nat)
    requires p.Valid() && p.HasColumns() && |times| == p.rows
    requires i < |times| && Sum(times[..i]) <= at < Sum(times[..i]) + times[i]
    ensures SampleLevelRepeat(p, times).Ok?
    ensures var q := SampleLevelRepeat(p, times).value;
            q.Valid() && q.rows == Sum(times) && at < q.rows && Rows(q)[at] == Rows(p)[i]
  {
    hide SampleLevelRepeat, RepeatIndex, Sum, Rows;
    SampleRepeatMoves(p, times);
    RepeatIndexSize(times, 0);
    RepeatIndexAt(times, 0, i, at);
    MovedRow(p, RepeatIndex(times, 0), SampleLevelRepeat(p, times).value, at);
  }

  // A single count holds for every row, if the batch size is right then.
  lemma SampledAlike<T>(p: Proto<T>, times: seq<nat>)
    requires p.HasColumns() && |times| != p.rows
    ensures SampleLevelRepeat(p, times).Ok? <==> |times| == 1 && (!p.hasBatch || p.rows * times[0] == times[0])
    ensures SampleLevelRepeat(p, times).Ok? ==> SampleLevelRepeat(p, times).value == Repeat(p, times[0], true)
  {
    hide Repeat;
  }

  // Without columns there is only the number of rows, and that only with a TensorDict.
  lemma NothingSelected<T>(p: Proto<T>, idxs: seq<int>, mask: seq<bool>, times: seq<nat>)
    requires p.Valid() && !p.HasColumns()
    ensures SelectIdxs(p, idxs).Ok? && SelectMask(p, mask).Ok? && SampleLevelRepeat(p, times).Ok?
    ensures var q, r, s := SelectIdxs(p, idxs).value, SelectMask(p, mask).value, SampleLevelRepeat(p, times).value;
            && q.Valid() && r.Valid() && s.Valid() && !q.HasColumns() && !r.HasColumns() && !s.HasColumns()
            && q.hasBatch == r.hasBatch == s.hasBatch == p.hasBatch
            && (p.hasBatch ==> q.rows == |idxs| && r.rows == |Nonzero(mask, 0)| && s.rows == Sum(times))
  {
  }

  // A mask is as long as the data.
  lemma MaskFits<T>(p: Proto<T>, mask: seq<bool>)
    requires p.HasColumns()
    ensures SelectMask(p, mask).Ok? <==> |mask| == p.rows
  {
  }

  // ------------------------------------------------------------------ slices

  // The position in [lo, hi] nearest to i.
  predicate Nearest(i: int, lo: int, hi: int, r: int) {
    lo <= r <= hi && (i < lo ==> r == lo) && (i > hi ==> r == hi) && (lo <= i <= hi ==> r == i)
  }

  // Where a slice starts and where it ends, before its end: a negative bound counts from the end.
  predicate StartsAt(n: nat, start: Option<int>, step: int, first: int) {
    match start
    case None => first == if step > 0 then 0 else n - 1
    case Some(i) =>
      Nearest(if i < 0 then n + i else i, if step > 0 then 0 else -1, if step > 0 then n else n - 1, first)
  }

  predicate EndsAt(n: nat, end: Option<int>, step: int, last: int) {
    match end
    case None => last == if step > 0 then n else -1
    case Some(i) =>
      Nearest(if i < 0 then n + i else i, if step > 0 then 0 else -1, if step > 0 then n else n - 1, last)
  }

  lemma {:induction false} StrideAt(lo: nat, hi: nat, step: nat, j: nat)
    requires step > 0
    ensures j < |Stride(lo, hi, step)| <==> lo + j * step < hi
    ensures j < |Stride(lo, hi, step)| ==> Stride(lo, hi, step)[j] == lo + j * step
    decreases j
  {
    if lo < hi && j > 0 {
      StrideAt(lo + step, hi, step, j - 1);
      Peel(j, step);
    }
  }

  lemma {:induction false} StrideDownAt(hi: int, lo: int, step: nat, j: nat)
    requires step > 0 && lo >= -1
    ensures j < |StrideDown(hi, lo, step)| <==> hi - j * step > lo
    ensures j < |StrideDown(hi, lo, step)| ==> StrideDown(hi, lo, step)[j] == hi - j * step
    decreases j
  {
    if lo < hi && j > 0 {
      StrideDownAt(hi - step, lo, step, j - 1);
      Peel(j, step);
    }
  }

  function Stepped(first: int, step: int, j: nat): int {
    first + j * step
  }

  // Entry j of a slice is start + j * step, as long as that lies before the end.
  lemma SliceEntry(n: nat, start: Option<int>, end: Option<int>, step: int, first: int, last: int, j: nat)
    requires step != 0 && StartsAt(n, start, step, first) && EndsAt(n, end, step, last)
    ensures var ix := SliceIndex(n, start, end, step);
            && (j < |ix| <==> if step > 0 then Stepped(first, step, j) < last else Stepped(first, step, j) > last)
            && (j < |ix| ==> ix[j] == Stepped(first, step, j))
  {
    if step > 0 {
      StrideAt(first, last, step, j);
    } else {
      StrideDownAt(first, last, -step, j);
      assert j * (-step) == -(j * step);
    }
  }

  lemma SlicedRow<T>(p: Proto<T>, start: Option<int>, end: Option<int>, step: int, first: int, last: int,
                     j: nat)
    requires p.Valid() && p.Stored() && StartsAt(p.rows, start, step, first) && EndsAt(p.rows, end, step, last)
    ensures Slice(p, start, end, step).Ok? <==> step > 0 || (step < 0 && !p.hasBatch)
    ensures Slice(p, start, end, step).Ok? ==>
              var q := Slice(p, start, end, step).value;
              && q.Valid()
              && (j < q.rows <==> if step > 0 then Stepped(first, step, j) < last else Stepped(first, step, j) > last)
              && (j < q.rows ==>
                    0 <= Stepped(first, step, j) < p.rows && Rows(q)[j] == Rows(p)[Stepped(first, step, j)])
  {
    SliceTakes(p, start, end, step);
    hide Slice, Rows, SliceIndex, StartsAt, EndsAt, Stepped;
    if Slice(p, start, end, step).Ok? {
      var ix := SliceIndex(p.rows, start, end, step);
      SliceEntry(p.rows, start, end, step, first, last, j);
      if j < |ix| {
        MovedRow(p, ix, Slice(p, start, end, step).value, j);
      }
    }
  }

  lemma SliceTakes<T>(p: Proto<T>, start: Option<int>, end: Option<int>, step: int)
    requires p.Valid() && p.Stored()
    ensures Slice(p, start, end, step).Ok? <==> step > 0 || (step < 0 && !p.hasBatch)
    ensures Slice(p, start, end, step).Ok? ==>
              var q := Slice(p, start, end, step).value;
              q.rows == |SliceIndex(p.rows, start, end, step)| && Moves(p, SliceIndex(p.rows, start, end, step), q)
  {
    hide Moves, SliceIndex;
    if Slice(p, start, end, step).Ok? {
      PickMoves(p, SliceIndex(p.rows, start, end, step));
    }
  }
}
