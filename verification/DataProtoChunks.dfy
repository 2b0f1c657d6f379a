/** Cutting a DataProto into chunks and putting DataProtos back together. */
module DataProtoChunks {
  import opened Wrappers
  import opened Arithmetic
  import opened TorchRows
  import opened NumpyRows
  import opened DataProto

  // ------------------------------------------------------------------ chunk

  function PieceSizes(n: nat, size: nat): seq<nat>
    requires size > 0
  {
    if n == 0 then [] else if n <= size then [n] else [size] + PieceSizes(n - size, size)
  }

  // The batch sizes of batch.chunk(chunks).
  function ChunkSizes(n: nat, chunks: nat): seq<nat>
    requires chunks > 0
  {
    if n == 0 then Copies(0, chunks)
    else
      CeilPositive(n, chunks);
      PieceSizes(n, Div(n + chunks - 1, chunks))
  }

  // Where np.array_split cuts: after the sizes of the tensor chunks, or evenly if there are none.
  function CutAt<T>(p: Proto<T>, chunks: nat, i: nat): nat
    requires chunks > 0 && (p.hasBatch ==> i <= |ChunkSizes(p.rows, chunks)|)
  {
    if p.hasBatch then Prefix(ChunkSizes(p.rows, chunks), i) else PartStart(p.rows, chunks, i)
  }

  function Span(lo: nat, hi: nat): (ix: seq<nat>)
    ensures forall j :: 0 <= j < |ix| ==> ix[j] == lo + j
    ensures |ix| == if lo < hi then hi - lo else 0
  {
    seq(if lo < hi then hi - lo else 0, j => lo + j)
  }

  function NthChunk<T>(col: seq<T>, chunks: nat, i: nat): seq<T>
    requires chunks > 0
  {
    if i < |Chunk(col, chunks)| then Chunk(col, chunks)[i] else []
  }

  // Part i of a numpy column.
  function NthPart<T>(p: Proto<T>, col: seq<T>, chunks: nat, i: nat): seq<T>
    requires chunks > 0 && i < chunks && (p.hasBatch ==> |ChunkSizes(p.rows, chunks)| == chunks)
  {
    if p.hasBatch then
      var sizes := ChunkSizes(p.rows, chunks);
      CutOut(col, Prefix(sizes, i), if i + 1 == chunks then |col| else Prefix(sizes, i + 1))
    else CutOut(col, PartStart(|col|, chunks, i), PartStart(|col|, chunks, i + 1))
  }

  function ChunkAt<T>(p: Proto<T>, chunks: nat, i: nat): Proto<T>
    requires chunks > 0 && i < chunks && (p.hasBatch ==> |ChunkSizes(p.rows, chunks)| == chunks)
  {
    var lo, hi := CutAt(p, chunks, i), CutAt(p, chunks, i + 1);
    MapBoth(p, if lo < hi then hi - lo else 0, (c: seq<T>) => NthChunk(c, chunks, i), (c: seq<T>) => NthPart(p, c,
        chunks, i))
  }

  function Chunks<T>(p: Proto<T>, chunks: nat, paddingEnabled: bool): Result<seq<Proto<T>>, Error> {
    if chunks == 0 then Err(DivisionByZero)
    else if !paddingEnabled && p.rows % chunks != 0 then Err(NotDivisible)
    else if p.hasBatch && |ChunkSizes(p.rows, chunks)| != chunks then Err(TooFewChunks)
    else Ok(seq(chunks, j requires 0 <= j < chunks => ChunkAt(p, chunks, j)))
  }

  // Where the numpy columns are cut, when there are tensor chunks to follow.
  function Cuts<T>(p: Proto<T>, chunks: nat): seq<nat>
    requires chunks > 0
  {
    var ends := Cumulative(ChunkSizes(p.rows, chunks));
    if ends == [] then [] else ends[..|ends| - 1]
  }

  function SplitColumn<T>(p: Proto<T>, chunks: nat, col: seq<T>): seq<seq<T>>
    requires chunks > 0
  {
    if p.hasBatch then ArraySplitAt(col, Cuts(p, chunks), 0) else ArraySplit(col, chunks)
  }

  lemma SplitColumnIs<T>(p: Proto<T>, chunks: nat, col: seq<T>)
    requires chunks > 0
    ensures |SplitColumn(p, chunks, col)| == if p.hasBatch then |ChunkSizes(p.rows, chunks)| else chunks
    ensures !p.hasBatch || |ChunkSizes(p.rows, chunks)| == chunks ==>
              forall i :: 0 <= i < chunks ==> SplitColumn(p, chunks, col)[i] == NthPart(p, col, chunks, i)
  {
    var sizes := ChunkSizes(p.rows, chunks);
    SizesWithin(p.rows, chunks);
    if p.hasBatch {
      forall i | 0 <= i < |sizes|
        ensures |SplitColumn(p, chunks, col)| == |sizes|
        ensures |sizes| == chunks ==> SplitColumn(p, chunks, col)[i] == NthPart(p, col, chunks, i)
      {
        SplitAtSizes(col, sizes, i);
      }
      SplitAtSizes(col, sizes, 0);
    }
  }

  lemma SizesWithin(n: nat, chunks: nat)
    requires chunks > 0
    ensures 0 < |ChunkSizes(n, chunks)| <= chunks
  {
    if n > 0 {
      CeilPositive(n, chunks);
      CeilBounds(n, chunks);
      var size := Div(n + chunks - 1, chunks);
      PieceCount(n, size, |PieceSizes(n, size)|);
      if |PieceSizes(n, size)| > chunks {
        ScaleMonotone(chunks, |PieceSizes(n, size)| - 1, size);
      }
    }
  }

  // A chunk's dictionary with these numpy columns.
  function PartsOf<T>(p: Proto<T>, chunks: nat, i: nat, keys: set<string>): Columns<T>
    requires chunks > 0 && i < chunks && (p.hasBatch ==> |ChunkSizes(p.rows, chunks)| == chunks)
    requires keys <= p.others.Keys
  {
    map k | k in keys :: NthPart(p, p.others[k], chunks, i)
  }

  // The loop over the numpy columns: each is split and its parts are dealt out to the chunks' dictionaries.
  method DealColumns<T>(p: Proto<T>, chunks: nat) returns (r: Result<seq<Columns<T>>, Error>)
    requires chunks > 0
    ensures r.Ok? <==> p.others == map[] || !p.hasBatch || |ChunkSizes(p.rows, chunks)| == chunks
    ensures r.Err? ==> r.error == TooFewChunks
    ensures r.Ok? ==> |r.value| == chunks
    ensures r.Ok? && (p.hasBatch ==> |ChunkSizes(p.rows, chunks)| == chunks) ==>
              forall i :: 0 <= i < chunks ==> r.value[i] == PartsOf(p, chunks, i, p.others.Keys)
  {
    ghost var even := p.hasBatch ==> |ChunkSizes(p.rows, chunks)| == chunks;
    var dealt: seq<Columns<T>> := seq(chunks, _ => map[]);
    var todo := p.others.Keys;
    while todo != {}
      invariant todo <= p.others.Keys && |dealt| == chunks
      invariant todo < p.others.Keys ==> even
      invariant even ==> forall i :: 0 <= i < chunks ==> dealt[i] == PartsOf(p, chunks, i, p.others.Keys - todo)
    {
      var key :| key in todo;
      var parts := SplitColumn(p, chunks, p.others[key]);
      SplitColumnIs(p, chunks, p.others[key]);
      if |parts| != chunks {
        return Err(TooFewChunks);
      }
      ghost var before := dealt;
      for i := 0 to chunks
        invariant |dealt| == chunks
        invariant forall j :: 0 <= j < chunks ==> dealt[j] == if j < i then before[j][key := parts[j]] else before[j]
      {
        dealt := dealt[i := dealt[i][key := parts[i]]];
      }
      forall i | 0 <= i < chunks
        ensures dealt[i] == PartsOf(p, chunks, i, p.others.Keys - (todo - {key}))
      {
        assert p.others.Keys - (todo - {key}) == (p.others.Keys - todo) + {key};
      }
      todo := todo - {key};
    }
    assert p.others.Keys - {} == p.others.Keys;
    r := Ok(dealt);
  }

  // The TensorDict is chunked, the numpy columns are dealt out, and the chunks are put together one by one.
  method ChunkProto<T>(p: Proto<T>, chunks: nat, paddingEnabled: bool) returns (r: Result<seq<Proto<T>>, Error>)
    ensures r == Chunks(p, chunks, paddingEnabled)
  {
    if chunks == 0 {
      return Err(DivisionByZero);
    }
    if !paddingEnabled && p.rows % chunks != 0 {
      return Err(NotDivisible);
    }
    var count := if p.hasBatch then |ChunkSizes(p.rows, chunks)| else chunks;
    SizesWithin(p.rows, chunks);
    hide ChunkAt, ChunkSizes, PartsOf;
    var dealt :- DealColumns(p, chunks);
    var output: seq<Proto<T>> := [];
    for i := 0 to chunks
      invariant i <= count <= chunks
      invariant count == chunks ==> output == seq(i, j requires 0 <= j < i => ChunkAt(p, chunks, j))
    {
      if i >= count {
        return Err(TooFewChunks);
      }
      var chunk := PutTogether(p, chunks, i, dealt[i]);
      output := output + [chunk];
    }
    r := Ok(output);
  }

  // type(self)(batch=batch_lst[i], non_tensor_batch=non_tensor_batch_lst[i])
  method PutTogether<T>(p: Proto<T>, chunks: nat, i: nat, others: Columns<T>) returns (r: Proto<T>)
    requires i < chunks && (p.hasBatch ==> i < |ChunkSizes(p.rows, chunks)|)
    ensures (p.hasBatch ==> |ChunkSizes(p.rows, chunks)| == chunks)
            && others == PartsOf(p, chunks, i, p.others.Keys) ==>
              r == ChunkAt(p, chunks, i)
  {
    var lo, hi := CutAt(p, chunks, i), CutAt(p, chunks, i + 1);
    var tensors := MapColumns(p.tensors, (c: seq<T>) => NthChunk(c, chunks, i));
    r := Proto(if lo < hi then hi - lo else 0, p.hasBatch, tensors, others);
    hide CutAt, NthChunk, NthPart;
    ghost var even := p.hasBatch ==> |ChunkSizes(p.rows, chunks)| == chunks;
    if even {
      assert PartsOf(p, chunks, i, p.others.Keys) == ChunkAt(p, chunks, i).others;
    }
  }

  lemma {:induction false} PieceAt<T>(s: seq<T>, size: nat, i: nat)
    requires size > 0
    ensures |Pieces(s, size)| == |PieceSizes(|s|, size)|
    ensures i < |Pieces(s, size)| ==>
              Prefix(PieceSizes(|s|, size), i + 1) <= |s|
              && Pieces(s, size)[i] == s[Prefix(PieceSizes(|s|, size), i)..Prefix(PieceSizes(|s|, size), i + 1)]
    decreases |s|
  {
    var sizes := PieceSizes(|s|, size);
    if s == [] {
    } else if |s| <= size {
      assert Prefix(sizes, 1) == Prefix(sizes, 0) + sizes[0];
    } else {
      var rest := s[size..];
      PieceAt(rest, size, if i == 0 then 0 else i - 1);
      var others := PieceSizes(|rest|, size);
      assert sizes == [size] + others && Pieces(s, size) == [s[..size]] + Pieces(rest, size);
      hide Pieces, PieceSizes, Prefix;
      if 0 < i < |sizes| {
        LaterPiece(s, size, Pieces(rest, size), others, i);
      } else {
        PrefixCons(size, others, 0);
        PrefixCons(size, others, 1);
        PrefixZero(others);
      }
    }
  }

  lemma PrefixZero(xs: seq<nat>)
    ensures Prefix(xs, 0) == 0
  {
  }

  lemma LaterPiece<T>(s: seq<T>, size: nat, pieces: seq<seq<T>>, others: seq<nat>, i: nat)
    requires 0 < i <= |others| == |pieces| && size <= |s|
    requires Prefix(others, i) <= |s| - size && Prefix(others, i - 1) <= Prefix(others, i)
    requires pieces[i - 1] == s[size..][Prefix(others, i - 1)..Prefix(others, i)]
    ensures var sizes := [size] + others;
            Prefix(sizes, i) <= Prefix(sizes, i + 1) <= |s|
            && ([s[..size]] + pieces)[i] == s[Prefix(sizes, i)..Prefix(sizes, i + 1)]
  {
    PrefixCons(size, others, i);
    PrefixCons(size, others, i + 1);
    hide Prefix;
  }

  lemma {:induction false} PrefixCons(x: nat, xs: seq<nat>, i: nat)
    requires i <= |xs| + 1
    ensures Prefix([x] + xs, i) == if i == 0 then 0 else x + Prefix(xs, i - 1)
  {
    if i > 1 {
      PrefixCons(x, xs, i - 1);
    }
  }

  lemma {:induction false} EmptiesAt<T>(n: nat, i: nat)
    requires i < n
    ensures |Empties<T>(n)| == n && Empties<T>(n)[i] == []
  {
    if i > 0 {
      EmptiesAt<T>(n - 1, i - 1);
    } else if n > 1 {
      EmptiesAt<T>(n - 1, 0);
    }
  }

  lemma {:induction false} PrefixZeros(n: nat, i: nat)
    requires i <= n
    ensures Prefix(Copies(0, n), i) == 0
  {
    if i > 0 {
      PrefixZeros(n, i - 1);
    }
  }

  // torch.chunk and np.array_split cut a column at the same places.
  lemma ChunkAgree<T>(col: seq<T>, chunks: nat, i: nat)
    requires chunks > 0 && |ChunkSizes(|col|, chunks)| == chunks && i < chunks
    ensures var sizes := ChunkSizes(|col|, chunks);
            Prefix(sizes, i) <= Prefix(sizes, i + 1) <= |col|
            && NthChunk(col, chunks, i) == col[Prefix(sizes, i)..Prefix(sizes, i + 1)]
  {
    if col == [] {
      PrefixZeros(chunks, i);
      PrefixZeros(chunks, i + 1);
      EmptiesAt<T>(chunks, i);
    } else {
      CeilPositive(|col|, chunks);
      PieceAt(col, Div(|col| + chunks - 1, chunks), i);
    }
  }

  lemma ChunkMoves<T>(p: Proto<T>, chunks: nat, i: nat)
    requires p.Valid() && p.Stored()
    requires chunks > 0 && i < chunks && (p.hasBatch ==> |ChunkSizes(p.rows, chunks)| == chunks)
    ensures CutAt(p, chunks, i) <= CutAt(p, chunks, i + 1) <= p.rows
    ensures var ix := Span(CutAt(p, chunks, i), CutAt(p, chunks, i + 1));
            Moves(p, ix, ChunkAt(p, chunks, i)) && ChunkAt(p, chunks, i).HasColumns() == p.HasColumns()
  {
    CutInRange(p, chunks, i);
    TensorsCut(p, chunks, i);
    OthersCut(p, chunks, i);
    hide Picks, Moves, CutAt;
    PicksMove(p, Span(CutAt(p, chunks, i), CutAt(p, chunks, i + 1)), ChunkAt(p, chunks, i));
  }

  lemma CutInRange<T>(p: Proto<T>, chunks: nat, i: nat)
    requires chunks > 0 && i < chunks && (p.hasBatch ==> |ChunkSizes(p.rows, chunks)| == chunks)
    ensures CutAt(p, chunks, i) <= CutAt(p, chunks, i + 1) <= p.rows
  {
    if p.hasBatch {
      ChunkAgree(Copies(0, p.rows), chunks, i);
    } else {
      PartsOrdered(p.rows, chunks, i, i + 1);
    }
  }

  lemma TensorsCut<T>(p: Proto<T>, chunks: nat, i: nat)
    requires p.Valid() && chunks > 0 && i < chunks && (p.hasBatch ==> |ChunkSizes(p.rows, chunks)| == chunks)
    ensures Picks(p.tensors, Span(CutAt(p, chunks, i), CutAt(p, chunks, i + 1)), ChunkAt(p, chunks, i).tensors)
  {
    var ix := Span(CutAt(p, chunks, i), CutAt(p, chunks, i + 1));
    var ft := (c: seq<T>) => NthChunk(c, chunks, i);
    forall k | k in p.tensors
      ensures Within(ix, |p.tensors[k]|) && ft(p.tensors[k]) == Gather(p.tensors[k], ix)
    {
      ChunkAgree(p.tensors[k], chunks, i);
    }
    MapPicks(p.tensors, ix, ft);
  }

  lemma OthersCut<T>(p: Proto<T>, chunks: nat, i: nat)
    requires p.Valid() && chunks > 0 && i < chunks && (p.hasBatch ==> |ChunkSizes(p.rows, chunks)| == chunks)
    ensures Picks(p.others, Span(CutAt(p, chunks, i), CutAt(p, chunks, i + 1)), ChunkAt(p, chunks, i).others)
  {
    CutInRange(p, chunks, i);
    SizesCover(p.rows, chunks);
    var lo, hi := CutAt(p, chunks, i), CutAt(p, chunks, i + 1);
    forall k | k in p.others
      ensures NthPart(p, p.others[k], chunks, i) == CutOut(p.others[k], lo, hi)
    {
    }
    hide CutAt, NthPart;
    MapPicks(p.others, Span(lo, hi), (c: seq<T>) => NthPart(p, c, chunks, i));
  }

  lemma SizesCover(n: nat, chunks: nat)
    requires chunks > 0
    ensures Prefix(ChunkSizes(n, chunks), |ChunkSizes(n, chunks)|) == n
  {
    if n == 0 {
      PrefixZeros(chunks, chunks);
    } else {
      CeilPositive(n, chunks);
      PieceCount(n, Div(n + chunks - 1, chunks), chunks);
    }
  }

  lemma {:induction false} PieceCount(n: nat, size: nat, count: nat)
    requires size > 0 && n > 0
    ensures |PieceSizes(n, size)| == count <==> count > 0 && (count - 1) * size < n <= count * size
    ensures Prefix(PieceSizes(n, size), |PieceSizes(n, size)|) == n
    decreases n
  {
    if n <= size {
      assert Prefix([n], 1) == Prefix([n], 0) + n;
      if count > 1 {
        ScaleMonotone(1, count - 1, size);
      }
    } else {
      PieceCount(n - size, size, if count == 0 then 0 else count - 1);
      PieceCount(n - size, size, 0);
      var rest := PieceSizes(n - size, size);
      PrefixCons(size, rest, |rest| + 1);
      if count >= 2 {
        Peel(count, size);
        Peel(count - 1, size);
      }
    }
  }

  // With a TensorDict, chunk() succeeds exactly when torch yields as many chunks as asked for; without
  // automatic padding that is every batch whose size the number of chunks divides.
  lemma ChunksExactlyWhen<T>(p: Proto<T>, chunks: nat, paddingEnabled: bool)
    ensures Chunks(p, chunks, paddingEnabled).Ok? <==>
            chunks > 0 && (paddingEnabled || p.rows % chunks == 0)
            && (p.hasBatch && p.rows > 0 ==> (chunks - 1) * Div(p.rows + chunks - 1, chunks) < p.rows)
    ensures chunks > 0 && p.rows % chunks == 0 ==> Chunks(p, chunks, paddingEnabled).Ok?
  {
    if chunks > 0 && p.rows > 0 {
      CeilPositive(p.rows, chunks);
      PieceCount(p.rows, Div(p.rows + chunks - 1, chunks), chunks);
      CeilBounds(p.rows, chunks);
    }
    hide Div, PieceSizes;
  }

  // Chunk i starts at row i * ceil(rows / chunks); with automatic padding the last chunk may be shorter.
  lemma CutIs<T>(p: Proto<T>, chunks: nat, i: nat)
    requires chunks > 0 && i <= chunks && p.hasBatch && |ChunkSizes(p.rows, chunks)| == chunks
    ensures CutAt(p, chunks, i) == Min(i * Div(p.rows + chunks - 1, chunks), p.rows)
  {
    if p.rows == 0 {
      PrefixZeros(chunks, i);
    } else {
      CeilPositive(p.rows, chunks);
      hide Div;
      PrefixPieces(p.rows, Div(p.rows + chunks - 1, chunks), i);
    }
  }

  lemma {:induction false} PrefixPieces(n: nat, size: nat, i: nat)
    requires size > 0 && i <= |PieceSizes(n, size)|
    ensures Prefix(PieceSizes(n, size), i) == Min(i * size, n)
    decreases n
  {
    if i > 0 {
      Peel(i, size);
      if n > size {
        PrefixPieces(n - size, size, i - 1);
        PrefixCons(size, PieceSizes(n - size, size), i);
      } else {
        assert Prefix(PieceSizes(n, size), 1) == Prefix(PieceSizes(n, size), 0) + n;
      }
    }
  }

  // When the chunks divide the rows, every chunk has the same number of them.
  lemma EvenCut<T>(p: Proto<T>, chunks: nat, i: nat)
    requires chunks > 0 && i <= chunks && p.rows % chunks == 0
    ensures p.hasBatch ==> |ChunkSizes(p.rows, chunks)| == chunks
    ensures CutAt(p, chunks, i) == i * Div(p.rows, chunks)
  {
    ChunksExactlyWhen(p, chunks, false);
    assert p.rows == Div(p.rows, chunks) * chunks;
    if p.hasBatch {
      Quotient(p.rows + chunks - 1, chunks, Div(p.rows, chunks), chunks - 1);
      ScaleMonotone(i, chunks, Div(p.rows, chunks));
      CutIs(p, chunks, i);
    }
  }

  lemma CeilBounds(n: nat, c: nat)
    requires n > 0 && c > 0
    ensures n <= c * Div(n + c - 1, c)
    ensures n % c == 0 ==> (c - 1) * Div(n + c - 1, c) < n
  {
    var size := Div(n + c - 1, c);
    assert n + c - 1 == size * c + (n + c - 1) % c;
    if n % c == 0 {
      Quotient(n + c - 1, c, Div(n, c), c - 1);
      Peel(c, size);
      ProductPositive(Div(n, c), c);
    }
  }

  lemma CutsCover<T>(p: Proto<T>, chunks: nat, paddingEnabled: bool)
    requires Chunks(p, chunks, paddingEnabled).Ok?
    ensures CutAt(p, chunks, 0) == 0 && CutAt(p, chunks, chunks) == p.rows
  {
    if !p.hasBatch {
      PartStep(p.rows, chunks, 0);
    } else {
      SizesCover(p.rows, chunks);
    }
  }

  // ------------------------------------------------------------------ concat

  function TotalRows<T>(ps: seq<Proto<T>>): nat {
    if ps == [] then 0 else ps[0].rows + TotalRows(ps[1..])
  }

  function TensorColumn<T>(ps: seq<Proto<T>>, k: string): seq<T> {
    if ps == [] then [] else (if k in ps[0].tensors then ps[0].tensors[k] else []) + TensorColumn(ps[1..], k)
  }

  // np.concatenate of the lists gathered per key; a part without the key contributes nothing.
  function OtherColumn<T>(ps: seq<Proto<T>>, k: string): seq<T> {
    if ps == [] then [] else (if k in ps[0].others then ps[0].others[k] else []) + OtherColumn(ps[1..], k)
  }

  predicate SameTensorKeys<T>(ps: seq<Proto<T>>) {
    forall i :: 0 <= i < |ps| ==> ps[i].hasBatch && ps[i].tensors.Keys == ps[0].tensors.Keys
  }

  predicate NoNewKeys<T>(ps: seq<Proto<T>>) {
    forall i :: 0 <= i < |ps| ==> ps[i].others.Keys <= ps[0].others.Keys
  }

  // Column lengths are checked against the batch size only when there is a TensorDict.
  function Concatenate<T>(ps: seq<Proto<T>>): Result<Proto<T>, Error> {
    if ps == [] then Err(NoData)
    else if ps[0].hasBatch && !SameTensorKeys(ps) then Err(KeyMismatch)
    else if !NoNewKeys(ps) then Err(KeyMismatch)
    else if ps[0].hasBatch && exists k :: k in ps[0].others && |OtherColumn(ps, k)| != TotalRows(ps)
    then Err(KeyMismatch)
    else
      Ok(Proto(TotalRows(ps), ps[0].hasBatch,
               if ps[0].hasBatch then map k | k in ps[0].tensors :: TensorColumn(ps, k) else map[],
               map k | k in ps[0].others :: OtherColumn(ps, k)))
  }

  ghost predicate Alike<T>(ps: seq<Proto<T>>) {
    forall i :: 0 <= i < |ps| ==> ps[i].Valid() && SameColumns(ps[0], ps[i])
  }

  function AllRows<T>(ps: seq<Proto<T>>): seq<Row<T>>
    requires forall i :: 0 <= i < |ps| ==> ps[i].Valid()
  {
    if ps == [] then [] else Rows(ps[0]) + AllRows(ps[1..])
  }

  lemma AlikeTail<T>(ps: seq<Proto<T>>)
    requires Alike(ps) && ps != []
    ensures Alike(ps[1..]) && (|ps| > 1 ==> SameColumns(ps[0], ps[1]))
  {
    forall j | 0 <= j < |ps[1..]|
      ensures ps[1..][j].Valid() && SameColumns(ps[1..][0], ps[1..][j])
    {
      assert SameColumns(ps[0], ps[j + 1]) && SameColumns(ps[0], ps[1]);
    }
  }

  lemma {:induction false} AllRowsSize<T>(ps: seq<Proto<T>>)
    requires Alike(ps)
    ensures |AllRows(ps)| == TotalRows(ps)
  {
    if ps != [] {
      AlikeTail(ps);
      AllRowsSize(ps[1..]);
    }
  }

  // Each concatenated column takes position i from the part and row that the i-th row comes from.
  lemma {:induction false} TensorEntry<T>(ps: seq<Proto<T>>, k: string, i: nat)
    requires Alike(ps) && ps != [] && k in ps[0].tensors
    ensures |TensorColumn(ps, k)| == TotalRows(ps) == |AllRows(ps)|
    ensures i < TotalRows(ps) ==> k in AllRows(ps)[i].tensors && TensorColumn(ps, k)[i] == AllRows(ps)[i].tensors[k]
  {
    AllRowsSize(ps);
    AlikeTail(ps);
    hide Alike;
    if |ps| > 1 {
      TensorEntry(ps[1..], k, if i < ps[0].rows then 0 else i - ps[0].rows);
    } else {
      assert ps[1..] == [];
    }
    if i < ps[0].rows {
      assert AllRows(ps)[i] == RowAt(ps[0], i);
    }
  }

  lemma {:induction false} OtherEntry<T>(ps: seq<Proto<T>>, k: string, i: nat)
    requires Alike(ps) && ps != [] && k in ps[0].others
    ensures |OtherColumn(ps, k)| == TotalRows(ps) == |AllRows(ps)|
    ensures i < TotalRows(ps) ==> k in AllRows(ps)[i].others && OtherColumn(ps, k)[i] == AllRows(ps)[i].others[k]
  {
    AllRowsSize(ps);
    AlikeTail(ps);
    hide Alike;
    if |ps| > 1 {
      OtherEntry(ps[1..], k, if i < ps[0].rows then 0 else i - ps[0].rows);
    } else {
      assert ps[1..] == [];
    }
    if i < ps[0].rows {
      assert AllRows(ps)[i] == RowAt(ps[0], i);
    }
  }

  lemma {:induction false} RowKeys<T>(ps: seq<Proto<T>>, i: nat)
    requires Alike(ps) && ps != [] && |AllRows(ps)| > i
    ensures AllRows(ps)[i].tensors.Keys == ps[0].tensors.Keys && AllRows(ps)[i].others.Keys == ps[0].others.Keys
  {
    AlikeTail(ps);
    if i < ps[0].rows {
      assert AllRows(ps)[i] == RowAt(ps[0], i);
    } else {
      RowKeys(ps[1..], i - ps[0].rows);
    }
  }

  lemma ConcatOk<T>(ps: seq<Proto<T>>)
    requires ps != [] && Alike(ps)
    ensures Concatenate(ps).Ok? && Concatenate(ps).value.Valid() && SameColumns(ps[0], Concatenate(ps).value)
    ensures Concatenate(ps).value.rows == |AllRows(ps)|
  {
    AllRowsSize(ps);
    forall k | k in ps[0].others
      ensures |OtherColumn(ps, k)| == TotalRows(ps)
    {
      OtherEntry(ps, k, 0);
    }
    forall k | k in ps[0].tensors
      ensures |TensorColumn(ps, k)| == TotalRows(ps)
    {
      TensorEntry(ps, k, 0);
    }
    forall i | 0 <= i < |ps|
      ensures ps[i].hasBatch == ps[0].hasBatch && ps[i].tensors.Keys == ps[0].tensors.Keys
      ensures ps[i].others.Keys == ps[0].others.Keys
    {
      assert SameColumns(ps[0], ps[i]);
    }
    var q := Concatenate(ps).value;
    assert q.others.Keys == ps[0].others.Keys && q.tensors.Keys == ps[0].tensors.Keys;
    if !q.hasBatch && q.others == map[] {
      assert ps[0].others.Keys == {};
      forall i | 0 <= i < |ps|
        ensures ps[i].rows == 0
      {
        assert SameColumns(ps[0], ps[i]) && ps[i].others.Keys == {} && ps[i].others == map[];
      }
      ColumnlessEmpty(ps);
    }
  }

  // Concatenation puts the rows of the parts one after the other.
  lemma ConcatRows<T>(ps: seq<Proto<T>>)
    requires ps != [] && Alike(ps)
    ensures Concatenate(ps).Ok? && Concatenate(ps).value.Valid() && SameColumns(ps[0], Concatenate(ps).value)
    ensures Rows(Concatenate(ps).value) == AllRows(ps)
  {
    ConcatOk(ps);
    var q := Concatenate(ps).value;
    hide Alike, Concatenate, RowAt, AllRows, SameColumns;
    forall i | 0 <= i < q.rows
      ensures RowAt(q, i) == AllRows(ps)[i]
    {
      ConcatRow(ps, i);
    }
  }

  lemma ConcatRow<T>(ps: seq<Proto<T>>, i: nat)
    requires ps != [] && Alike(ps) && Concatenate(ps).Ok? && Concatenate(ps).value.Valid()
    requires i < Concatenate(ps).value.rows && |AllRows(ps)| == Concatenate(ps).value.rows
    ensures RowAt(Concatenate(ps).value, i) == AllRows(ps)[i]
  {
    hide AllRows;
    ConcatRowTensors(ps, i);
    ConcatRowOthers(ps, i);
  }

  lemma ConcatRowTensors<T>(ps: seq<Proto<T>>, i: nat)
    requires ps != [] && Alike(ps) && Concatenate(ps).Ok? && Concatenate(ps).value.Valid()
    requires i < Concatenate(ps).value.rows && |AllRows(ps)| == Concatenate(ps).value.rows
    ensures RowAt(Concatenate(ps).value, i).tensors == AllRows(ps)[i].tensors
  {
    RowKeys(ps, i);
    TensorKeys(ps);
    var q := Concatenate(ps).value;
    hide Alike, AllRows, TensorColumn, Concatenate;
    forall k | k in q.tensors
      ensures q.tensors[k][i] == AllRows(ps)[i].tensors[k]
    {
      TensorEntry(ps, k, i);
    }
  }

  lemma TensorKeys<T>(ps: seq<Proto<T>>)
    requires ps != [] && Alike(ps) && Concatenate(ps).Ok?
    ensures var q := Concatenate(ps).value;
            q.tensors.Keys == ps[0].tensors.Keys
            && forall k <- q.tensors.Keys :: q.tensors[k] == TensorColumn(ps, k)
  {
  }

  lemma ConcatRowOthers<T>(ps: seq<Proto<T>>, i: nat)
    requires ps != [] && Alike(ps) && Concatenate(ps).Ok? && Concatenate(ps).value.Valid()
    requires i < Concatenate(ps).value.rows && |AllRows(ps)| == Concatenate(ps).value.rows
    ensures RowAt(Concatenate(ps).value, i).others == AllRows(ps)[i].others
  {
    RowKeys(ps, i);
    OtherKeys(ps);
    var q := Concatenate(ps).value;
    hide Alike, AllRows, OtherColumn, Concatenate;
    forall k | k in q.others
      ensures q.others[k][i] == AllRows(ps)[i].others[k]
    {
      OtherEntry(ps, k, i);
    }
  }

  lemma OtherKeys<T>(ps: seq<Proto<T>>)
    requires ps != [] && Alike(ps) && Concatenate(ps).Ok?
    ensures var q := Concatenate(ps).value;
            q.others.Keys == ps[0].others.Keys
            && forall k <- q.others.Keys :: q.others[k] == OtherColumn(ps, k)
  {
  }

  lemma {:induction false} ColumnlessEmpty<T>(ps: seq<Proto<T>>)
    requires forall i :: 0 <= i < |ps| ==> ps[i].rows == 0
    ensures TotalRows(ps) == 0
  {
    if ps != [] {
      ColumnlessEmpty(ps[1..]);
    }
  }
}
