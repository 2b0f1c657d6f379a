/** Any sequence of operations keeps rows whole, including those that change the object in place. */
module DataProtoOperations {
  import opened Wrappers
  import opened DataProto
  import opened DataProtoChunks
  import opened DataProtoDistribution

  // ------------------------------------------------------------------ any sequence of operations

  datatype Op = Select(idxs: seq<int>) | Mask(mask: seq<bool>) | Cut(start: Option<int>, end: Option<int>, step: int)
              | Repeated(times: nat, interleave: bool) | Sampled(counts: seq<nat>)
              | TakeChunk(chunks: nat, index: nat, paddingEnabled: bool) | TakeSplit(size: nat, index: nat)
              | Pad(size: nat, first: bool) | Reorder(idxs: seq<int>)

  // The rows that padding() appends: copies of the first or the last.
  function PadWith<T>(p: Proto<T>, size: nat, first: bool): Result<Proto<T>, Error> {
    if size == 0 then Ok(p)
    else
      var candidate :- SelectIdxs(p, [if first then 0 else p.rows - 1]);
      Concatenate([p, Repeat(candidate, size, true)])
  }

  function Apply<T>(p: Proto<T>, op: Op): Result<Proto<T>, Error> {
    match op
    case Select(idxs) => SelectIdxs(p, idxs)
    case Mask(mask) => SelectMask(p, mask)
    case Cut(start, end, step) => Slice(p, start, end, step)
    case Repeated(times, interleave) => Ok(Repeat(p, times, interleave))
    case Sampled(counts) => SampleLevelRepeat(p, counts)
    case TakeChunk(chunks, i, enabled) =>
      var cs :- Chunks(p, chunks, enabled);
      if i < |cs| then Ok(cs[i]) else Err(OutOfRange)
    case TakeSplit(size, i) =>
      var ps :- Split(p, size);
      if i < |ps| then Ok(ps[i]) else Err(OutOfRange)
    case Pad(size, first) => PadWith(p, size, first)
    case Reorder(idxs) => Reordered(p, idxs)
  }

  // Indexing in place needs a batch.
  function Reordered<T>(p: Proto<T>, indices: seq<int>): Result<Proto<T>, Error> {
    if !p.hasBatch then Err(NoData) else SelectIdxs(p, indices)
  }

  function Run<T>(p: Proto<T>, ops: seq<Op>): Result<Proto<T>, Error>
    decreases |ops|
  {
    if ops == [] then Ok(p)
    else
      var q :- Apply(p, ops[0]);
      Run(q, ops[1..])
  }

  lemma MovesCompose<T>(p: Proto<T>, ix: seq<nat>, q: Proto<T>, jx: seq<nat>, r: Proto<T>)
    requires Moves(p, ix, q) && Moves(q, jx, r)
    ensures Within(jx, |ix|) && Moves(p, Gather(ix, jx), r)
  {
    hide RowAt;
    assert |Rows(q)| == q.rows == |ix|;
    assert Rows(r) == Gather(Rows(p), Gather(ix, jx));
  }

  lemma PadTail<T>(p: Proto<T>, at: nat, size: nat)
    requires p.Valid() && p.HasColumns() && at < p.rows
    ensures SelectIdxs(p, [at]).Ok?
    ensures Moves(p, Copies<nat>(at, size), Repeat(SelectIdxs(p, [at]).value, size, true))
  {
    StoredColumns(p);
    assert Wrapped([at], p.rows) == [at];
    PickMoves(p, [at]);
    var candidate := SelectIdxs(p, [at]).value;
    RepeatMoves(candidate, size, true);
    assert candidate.rows == 1;
    hide Moves, Repeat, SelectIdxs;
    var ix := RepeatIx(1, size, true);
    MovesCompose(p, [at], candidate, ix, Repeat(candidate, size, true));
    assert Gather([at], ix) == Copies<nat>(at, size);
  }

  lemma StoredColumns<T>(p: Proto<T>)
    requires p.Valid() && p.HasColumns()
    ensures p.Stored()
  {
  }

  lemma ConcatTwo<T>(p: Proto<T>, tail: Proto<T>)
    requires p.Valid() && tail.Valid() && SameColumns(p, tail)
    ensures var r := Concatenate([p, tail]);
            r.Ok? && r.value.Valid() && SameColumns(p, r.value) && Rows(r.value) == Rows(p) + Rows(tail)
  {
    var parts := [p, tail];
    SameColumnsItself(p);
    assert Alike(parts);
    hide Concatenate, RowAt, Rows;
    ConcatRows(parts);
    assert parts[1..] == [tail] && [tail][1..] == [];
    assert AllRows([tail]) == Rows(tail) + AllRows([]);
    assert AllRows(parts) == Rows(p) + AllRows([tail]);
  }

  // Rows(p) + Rows(tail) are rows of p as well.
  lemma TwoParts<T>(p: Proto<T>, jx: seq<nat>, tail: Proto<T>)
    requires Moves(p, jx, tail)
    ensures Concatenate([p, tail]).Ok? && Moves(p, Span(0, p.rows) + jx, Concatenate([p, tail]).value)
  {
    ConcatTwo(p, tail);
    hide Concatenate, RowAt, SameColumns;
    RowsSize(p);
    RowsThenSome(Rows(p), jx);
    hide Rows, Span, Gather;
  }

  lemma RowsThenSome<R>(rows: seq<R>, jx: seq<nat>)
    requires Within(jx, |rows|)
    ensures Within(Span(0, |rows|) + jx, |rows|)
    ensures rows + Gather(rows, jx) == Gather(rows, Span(0, |rows|) + jx)
  {
  }

  // padding() keeps all rows and appends copies of the first or the last.
  lemma PadMoves<T>(p: Proto<T>, size: nat, first: bool)
    requires p.Valid() && p.HasColumns()
    ensures PadWith(p, size, first).Ok? <==> size == 0 || p.rows > 0
    ensures p.rows > 0 ==>
              Moves(p, Span(0, p.rows) + Copies<nat>(if first then 0 else p.rows - 1, size), PadWith(p, size,
                  first).value)
  {
    hide Moves, Concatenate, Repeat;
    if p.rows == 0 {
      assert !AllInRange([if first then 0 else p.rows - 1], 0) by {
        assert [if first then 0 else p.rows - 1][0] <= 0;
      }
    } else if size == 0 {
      IdentityMoves(p);
      assert Span(0, p.rows) + Copies<nat>(if first then 0 else p.rows - 1, 0) == Span(0, p.rows);
    } else {
      var at: nat := if first then 0 else p.rows - 1;
      PadTail(p, at, size);
      TwoParts(p, Copies<nat>(at, size), Repeat(SelectIdxs(p, [at]).value, size, true));
    }
  }

  // ------------------------------------------------------------------ rows stay whole

  lemma IdentityMoves<T>(p: Proto<T>)
    requires p.Valid()
    ensures Moves(p, Span(0, p.rows), p)
  {
    SameColumnsItself(p);
    assert Rows(p) == Gather(Rows(p), Span(0, p.rows));
  }

  lemma ColumnsKept<T>(p: Proto<T>, ix: seq<nat>, q: Proto<T>)
    requires Moves(p, ix, q) && p.HasColumns()
    ensures q.HasColumns() && q.Valid()
  {
    assert p.tensors == map[] <==> p.tensors.Keys == {};
    assert q.tensors == map[] <==> q.tensors.Keys == {};
    assert p.others == map[] <==> p.others.Keys == {};
    assert q.others == map[] <==> q.others.Keys == {};
  }

  function SampleIx<T>(p: Proto<T>, counts: seq<nat>): seq<nat>
    requires p.HasColumns() && SampleLevelRepeat(p, counts).Ok?
  {
    if |counts| == p.rows then RepeatIndex(counts, 0) else RepeatIx(p.rows, counts[0], true)
  }

  function ChunkIx<T>(p: Proto<T>, chunks: nat, i: nat, enabled: bool): seq<nat>
    requires Chunks(p, chunks, enabled).Ok? && i < |Chunks(p, chunks, enabled).value|
  {
    Span(CutAt(p, chunks, i), CutAt(p, chunks, i + 1))
  }

  function SplitIx(rows: nat, size: nat, i: nat): seq<nat> {
    var at := i * size;
    Span(at, if at + size < rows then at + size else rows)
  }

  function PadIx(rows: nat, size: nat, first: bool): seq<nat> {
    if rows == 0 then [] else Span(0, rows) + Copies<nat>(if first then 0 else rows - 1, size)
  }

  // The original row behind each row an operation leaves.
  function OpIndex<T>(p: Proto<T>, op: Op): seq<nat>
    requires p.Valid() && p.HasColumns() && Apply(p, op).Ok?
  {
    match op
    case Select(idxs) => Wrapped(idxs, p.rows)
    case Mask(mask) => Nonzero(mask, 0)
    case Cut(start, end, step) => SliceIndex(p.rows, start, end, step)
    case Repeated(times, interleave) => RepeatIx(p.rows, times, interleave)
    case Sampled(counts) => SampleIx(p, counts)
    case TakeChunk(chunks, i, enabled) => ChunkIx(p, chunks, i, enabled)
    case TakeSplit(size, i) => SplitIx(p.rows, size, i)
    case Reorder(idxs) => Wrapped(idxs, p.rows)
    case Pad(size, first) => PadIx(p.rows, size, first)
  }

  lemma OpMoves<T>(p: Proto<T>, op: Op)
    requires p.Valid() && p.HasColumns() && Apply(p, op).Ok?
    ensures Moves(p, OpIndex(p, op), Apply(p, op).value)
  {
    hide Moves, SampleIx, ChunkIx, SplitIx, PadIx, RepeatIx, Nonzero, Slice, PadWith, SampleLevelRepeat, SelectMask,
      SelectIdxs, Wrapped, Chunks, Split, SliceIndex, Repeat;
    match op
    case Select(idxs) => SelectMoves(p, idxs);
    case Mask(mask) => MaskTaken(p, mask);
    case Cut(start, end, step) => CutMoves(p, start, end, step);
    case Repeated(times, interleave) => RepeatedMoves(p, times, interleave);
    case Sampled(counts) => SampledMoves(p, counts);
    case TakeChunk(chunks, i, enabled) => TakenMoves(p, chunks, i, enabled);
    case TakeSplit(size, i) => SplitTaken(p, size, i);
    case Reorder(idxs) => SelectMoves(p, idxs);
    case Pad(size, first) => PaddedMoves(p, size, first);
  }

  lemma RepeatedMoves<T>(p: Proto<T>, times: nat, interleave: bool)
    requires p.Valid() && p.HasColumns()
    ensures Moves(p, RepeatIx(p.rows, times, interleave), Repeat(p, times, interleave))
  {
    StoredColumns(p);
    RepeatMoves(p, times, interleave);
  }

  lemma SplitTaken<T>(p: Proto<T>, size: nat, i: nat)
    requires p.Valid() && p.HasColumns() && Split(p, size).Ok? && i < |Split(p, size).value|
    ensures Moves(p, SplitIx(p.rows, size, i), Split(p, size).value[i])
  {
    StoredColumns(p);
    SplitMoves(p, size, i);
  }

  lemma PaddedMoves<T>(p: Proto<T>, size: nat, first: bool)
    requires p.Valid() && p.HasColumns() && PadWith(p, size, first).Ok?
    ensures Moves(p, PadIx(p.rows, size, first), PadWith(p, size, first).value)
  {
    PadMoves(p, size, first);
    if p.rows == 0 {
      PadNothing(p, size, first);
    }
    hide Moves, PadWith;
  }

  lemma SelectMoves<T>(p: Proto<T>, idxs: seq<int>)
    requires p.Valid() && p.HasColumns() && SelectIdxs(p, idxs).Ok?
    ensures Moves(p, Wrapped(idxs, p.rows), SelectIdxs(p, idxs).value)
  {
    PickMoves(p, Wrapped(idxs, p.rows));
    hide Moves;
  }

  lemma MaskTaken<T>(p: Proto<T>, mask: seq<bool>)
    requires p.Valid() && p.HasColumns() && SelectMask(p, mask).Ok?
    ensures Moves(p, Nonzero(mask, 0), SelectMask(p, mask).value)
  {
    MaskMoves(p, mask);
    hide Moves;
  }

  lemma CutMoves<T>(p: Proto<T>, start: Option<int>, end: Option<int>, step: int)
    requires p.Valid() && p.HasColumns() && Slice(p, start, end, step).Ok?
    ensures step != 0 && Moves(p, SliceIndex(p.rows, start, end, step), Slice(p, start, end, step).value)
  {
    PickMoves(p, SliceIndex(p.rows, start, end, step));
    hide Moves, SliceIndex;
  }

  lemma SampledMoves<T>(p: Proto<T>, counts: seq<nat>)
    requires p.Valid() && p.HasColumns() && SampleLevelRepeat(p, counts).Ok?
    ensures Moves(p, SampleIx(p, counts), SampleLevelRepeat(p, counts).value)
  {
    if |counts| == p.rows {
      SampleRepeatMoves(p, counts);
    } else {
      RepeatMoves(p, counts[0], true);
    }
    hide Moves;
  }

  lemma TakenMoves<T>(p: Proto<T>, chunks: nat, i: nat, enabled: bool)
    requires p.Valid() && p.HasColumns() && Chunks(p, chunks, enabled).Ok? && i < |Chunks(p, chunks, enabled).value|
    ensures Moves(p, ChunkIx(p, chunks, i, enabled), Chunks(p, chunks, enabled).value[i])
  {
    StoredColumns(p);
    ChunkMoves(p, chunks, i);
    hide Moves, ChunkAt, CutAt;
  }

  lemma PadNothing<T>(p: Proto<T>, size: nat, first: bool)
    requires p.Valid() && p.HasColumns() && p.rows == 0 && PadWith(p, size, first).Ok?
    ensures Moves(p, [], PadWith(p, size, first).value)
  {
    PadMoves(p, size, first);
    IdentityMoves(p);
    assert Span(0, 0) == [];
    hide Moves;
  }

  // After any sequence of operations every position holds one whole row of the original data: all tensor
  // and numpy columns took it from the same place, the composition of the operations' own choices.
  ghost predicate Traces<T>(p: Proto<T>, ops: seq<Op>, ix: seq<nat>)
    requires p.Valid() && p.HasColumns() && Run(p, ops).Ok?
    decreases |ops|
  {
    if ops == [] then ix == Span(0, p.rows)
    else
      OpMoves(p, ops[0]);
      var q := Apply(p, ops[0]).value;
      ColumnsKept(p, OpIndex(p, ops[0]), q);
      exists rest :: Within(rest, |OpIndex(p, ops[0])|) && Traces(q, ops[1..], rest)
                     && ix == Gather(OpIndex(p, ops[0]), rest)
  }

  lemma {:induction false} RowsStayWhole<T>(p: Proto<T>, ops: seq<Op>) returns (ix: seq<nat>)
    requires p.Valid() && p.HasColumns() && Run(p, ops).Ok?
    ensures Traces(p, ops, ix) && Moves(p, ix, Run(p, ops).value)
    decreases |ops|
  {
    hide Moves, Apply;
    if ops == [] {
      ix := Span(0, p.rows);
      IdentityMoves(p);
    } else {
      var first := OpIndex(p, ops[0]);
      OpMoves(p, ops[0]);
      var q := Apply(p, ops[0]).value;
      ColumnsKept(p, first, q);
      var rest := RowsStayWhole(q, ops[1..]);
      MovesCompose(p, first, q, rest, Run(p, ops).value);
      ix := Gather(first, rest);
    }
  }

  // ------------------------------------------------------------------ concat, when the keys differ

  lemma {:induction false} OtherColumnSize<T>(ps: seq<Proto<T>>, k: string)
    requires forall i :: 0 <= i < |ps| ==> ps[i].Valid()
    ensures |OtherColumn(ps, k)| <= TotalRows(ps)
    ensures |OtherColumn(ps, k)| == TotalRows(ps) <==>
              forall i :: 0 <= i < |ps| ==> k in ps[i].others || ps[i].rows == 0
  {
    if ps != [] {
      OtherColumnSize(ps[1..], k);
    }
  }

  // Without a TensorDict nothing checks the lengths: concat returns misaligned columns exactly when a part
  // with rows lacks a key of the first.
  lemma ConcatAlignedExactlyWhen<T>(ps: seq<Proto<T>>)
    requires ps != [] && (forall i :: 0 <= i < |ps| ==> ps[i].Valid() && !ps[i].hasBatch)
    requires NoNewKeys(ps)
    ensures Concatenate(ps).Ok?
    ensures Concatenate(ps).value.Valid() <==>
            forall k, i :: k in ps[0].others && 0 <= i < |ps| ==> k in ps[i].others || ps[i].rows == 0
  {
    var q := Concatenate(ps).value;
    forall k | k in ps[0].others
      ensures |q.others[k]| == q.rows <==> forall i :: 0 <= i < |ps| ==> k in ps[i].others || ps[i].rows == 0
    {
      OtherColumnSize(ps, k);
    }
    assert q.others.Keys == ps[0].others.Keys;
    if q.others == map[] {
      assert q.others.Keys == {};
      forall i | 0 <= i < |ps|
        ensures ps[i].rows == 0
      {
        assert ps[i].others.Keys == {} && ps[i].others == map[];
      }
      ColumnlessEmpty(ps);
    }
  }

  // With a TensorDict the lengths are checked, so that concat fails in that case, and in no other but unequal keys.
  lemma ConcatExactlyWhen<T>(ps: seq<Proto<T>>)
    requires forall i :: 0 <= i < |ps| ==> ps[i].Valid()
    ensures Concatenate(ps).Ok? <==>
            && ps != []
            && (forall k, i :: 0 <= i < |ps| && k in ps[i].others ==> k in ps[0].others)
            && (ps[0].hasBatch ==>
                  && (forall i :: 0 <= i < |ps| ==> ps[i].hasBatch && ps[i].tensors.Keys == ps[0].tensors.Keys)
                  && (forall k, i :: k in ps[0].others && 0 <= i < |ps| ==> k in ps[i].others || ps[i].rows == 0))
  {
    if ps != [] {
      assert NoNewKeys(ps) <==> forall k, i :: 0 <= i < |ps| && k in ps[i].others ==> k in ps[0].others;
      forall k | k in ps[0].others
        ensures |OtherColumn(ps, k)| == TotalRows(ps) <==>
                forall i :: 0 <= i < |ps| ==> k in ps[i].others || ps[i].rows == 0
      {
        OtherColumnSize(ps, k);
      }
    }
  }

  // reorder() needs a TensorDict, and takes indices as selecting does.
  lemma ReorderNeedsBatch<T>(p: Proto<T>, idxs: seq<int>)
    ensures Reordered(p, idxs).Ok? <==> p.hasBatch && SelectIdxs(p, idxs).Ok?
    ensures Reordered(p, idxs).Ok? ==> Reordered(p, idxs) == SelectIdxs(p, idxs)
  {
  }

  // Two columns of one row, then one of them only.
  const TWO_COLUMNS: Proto<int> := Proto(1, false, map[], map["a" := [1], "b" := [2]])
  const ONE_COLUMN: Proto<int> := Proto(1, false, map[], map["a" := [3]])

  lemma ConcatMisaligns()
    ensures TWO_COLUMNS.Valid() && ONE_COLUMN.Valid()
    ensures var r := Concatenate([TWO_COLUMNS, ONE_COLUMN]);
            r.Ok? && r.value.others == map["a" := [1, 3], "b" := [2]] && !r.value.Valid()
  {
    ColumnOfTwo(TWO_COLUMNS, ONE_COLUMN, "a");
    ColumnOfTwo(TWO_COLUMNS, ONE_COLUMN, "b");
    hide OtherColumn, TotalRows;
    var ps := [TWO_COLUMNS, ONE_COLUMN];
    assert OtherColumn(ps, "a") == [1, 3] && OtherColumn(ps, "b") == [2];
    assert Concatenate(ps).value.others.Keys == TWO_COLUMNS.others.Keys == {"a", "b"};
    assert |[1, 3]| != |[2]|;
  }

  lemma ColumnOfTwo(p: Proto<int>, q: Proto<int>, k: string)
    ensures OtherColumn([p, q], k) ==
            (if k in p.others then p.others[k] else []) + (if k in q.others then q.others[k] else [])
  {
    assert [p, q][1..] == [q] && [q][1..] == [];
    var second := if k in q.others then q.others[k] else [];
    assert OtherColumn([q], k) == second + OtherColumn<int>([], k) == second;
  }

  // ------------------------------------------------------------------ operations that change the object

  class DataProtoObject<T> {
    var rows: nat
    var hasBatch: bool
    var batch: Columns<T>
    var nonTensorBatch: Columns<T>

    constructor (p: Proto<T>)
      ensures Abstract() == p
    {
      rows, hasBatch, batch, nonTensorBatch := p.rows, p.hasBatch, p.tensors, p.others;
    }

    function Abstract(): Proto<T>
      reads this
    {
      Proto(rows, hasBatch, batch, nonTensorBatch)
    }

    method Padding(size: nat, first: bool) returns (r: Result<(), Error>)
      modifies this
      ensures PadWith(old(Abstract()), size, first) == if r.Ok? then Ok(Abstract()) else Err(r.error)
      ensures r.Err? ==> Abstract() == old(Abstract())
    {
      if size == 0 {
        return Ok(());
      }
      var candidate := SelectIdxs(Abstract(), [if first then 0 else rows - 1]);
      if candidate.Err? {
        return Err(candidate.error);
      }
      var padded := Concatenate([Abstract(), Repeat(candidate.value, size, true)]);
      if padded.Err? {
        return Err(padded.error);
      }
      rows, batch, nonTensorBatch := padded.value.rows, padded.value.tensors, padded.value.others;
      r := Ok(());
    }

    // self.batch[indices] and val[indices], in place; there must be a batch to index.
    method Reorder(indices: seq<int>) returns (r: Result<(), Error>)
      modifies this
      ensures Reordered(old(Abstract()), indices) == if r.Ok? then Ok(Abstract()) else Err(r.error)
      ensures r.Err? ==> Abstract() == old(Abstract())
    {
      if !hasBatch {
        return Err(NoData);
      }
      var selected := SelectIdxs(Abstract(), indices);
      if selected.Err? {
        return Err(selected.error);
      }
      rows, batch, nonTensorBatch := selected.value.rows, selected.value.tensors, selected.value.others;
      r := Ok(());
    }
  }

  // Reordering by a permutation and then by its inverse leaves every row where it was.
  lemma ReorderUndone<T>(p: Proto<T>, ix: seq<nat>, back: seq<nat>)
    requires p.Valid() && p.hasBatch && p.HasColumns()
    requires Within(ix, p.rows) && |ix| == p.rows && |back| == p.rows && Within(back, p.rows)
    requires forall j :: 0 <= j < p.rows ==> ix[back[j]] == j
    ensures var q := Reordered(p, ix);
            q.Ok? && var r := Reordered(q.value, back);
                     r.Ok? && r.value.Valid() && Rows(r.value) == Rows(p)
  {
    assert Wrapped(ix, p.rows) == ix && Wrapped(back, p.rows) == back;
    PickMoves(p, ix);
    var q := Reordered(p, ix).value;
    PickMoves(q, back);
    var r := Reordered(q, back).value;
    hide Reordered, RowAt;
    MovesCompose(p, ix, q, back, r);
    assert Gather(ix, back) == Span(0, p.rows);
  }
}
