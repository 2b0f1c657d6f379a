/** Padding, chunking, mapping, concatenating and unpadding: invisible to a row-wise computation. */
module DataProtoDistribution {
  import opened Wrappers
  import opened Arithmetic
  import opened DataProto
  import opened DataProtoChunks

  // ------------------------------------------------------------------ padding to a divisor

  // data[:take]
  function Head<T>(p: Proto<T>, take: nat): Proto<T> {
    Slice(p, None, Some(take), 1).value
  }

  // What the padding loop collects.
  function PadParts<T>(p: Proto<T>, remaining: nat): seq<Proto<T>>
    requires p.rows > 0
    decreases remaining
  {
    if remaining == 0 then []
    else
      var take := if remaining < p.rows then remaining else p.rows;
      [Head(p, take)] + PadParts(p, remaining - take)
  }

  function Padded<T>(p: Proto<T>, divisor: nat): Result<(Proto<T>, nat), Error> {
    if divisor == 0 then Err(DivisionByZero)
    else if p.rows % divisor == 0 then Ok((p, 0))
    else
      var padSize := divisor - p.rows % divisor;
      var data :- Concatenate([p] + PadParts(p, padSize));
      Ok((data, padSize))
  }

  method PadToDivisor<T>(p: Proto<T>, divisor: nat) returns (r: Result<(Proto<T>, nat), Error>)
    ensures r == Padded(p, divisor)
  {
    if divisor == 0 {
      return Err(DivisionByZero);
    }
    if p.rows % divisor == 0 {
      return Ok((p, 0));
    }
    hide PadParts, Concatenate;
    var padSize := divisor - p.rows % divisor;
    var parts := CollectPadding(p, padSize);
    var data := Concatenate([p] + parts);
    if data.Err? {
      return Err(data.error);
    }
    r := Ok((data.value, padSize));
  }

  method CollectPadding<T>(p: Proto<T>, padSize: nat) returns (parts: seq<Proto<T>>)
    requires p.rows > 0
    ensures parts == PadParts(p, padSize)
  {
    hide Head;
    parts := [];
    var remaining: nat := padSize;
    while remaining > 0
      invariant parts + PadParts(p, remaining) == PadParts(p, padSize)
    {
      var take := if remaining < p.rows then remaining else p.rows;
      assert (parts + [Head(p, take)]) + PadParts(p, remaining - take) == parts + PadParts(p, remaining);
      parts := parts + [Head(p, take)];
      remaining := remaining - take;
    }
  }

  // data[:-padSize], unless there is nothing to drop.
  function Unpad<T>(p: Proto<T>, padSize: nat): Proto<T> {
    if padSize != 0 then Slice(p, None, Some(0 - padSize), 1).value else p
  }

  lemma {:induction false} StrideOne(lo: nat, hi: nat)
    ensures Stride(lo, hi, 1) == Span(lo, hi)
    decreases if lo < hi then hi - lo else 0
  {
    if lo < hi {
      StrideOne(lo + 1, hi);
    }
  }

  lemma PrefixMoves<T>(p: Proto<T>, end: int)
    requires p.Valid() && p.Stored()
    ensures var q := Slice(p, None, Some(end), 1).value;
            Moves(p, Span(0, Clamp(end, p.rows)), q) && q.Valid() && SameColumns(p, q)
            && Rows(q) == Rows(p)[..Clamp(end, p.rows)]
  {
    var hi := Clamp(end, p.rows);
    StrideOne(0, hi);
    PickMoves(p, Span(0, hi));
    SpanRows(p, 0, hi, Slice(p, None, Some(end), 1).value);
  }

  lemma SpanRows<T>(p: Proto<T>, lo: nat, hi: nat, q: Proto<T>)
    requires Moves(p, Span(lo, hi), q) && lo <= p.rows && hi <= p.rows
    ensures q.Valid() && SameColumns(p, q) && Rows(q) == if lo < hi then Rows(p)[lo..hi] else []
  {
    hide SameColumns, RowAt;
  }

  lemma {:induction false} PadPartsRows<T>(p: Proto<T>, remaining: nat)
    requires p.Valid() && p.rows > 0
    ensures forall i :: 0 <= i < |PadParts(p, remaining)| ==>
              PadParts(p, remaining)[i].Valid() && SameColumns(p, PadParts(p, remaining)[i])
    ensures |AllRows(PadParts(p, remaining))| == remaining
    ensures forall j :: 0 <= j < remaining ==> AllRows(PadParts(p, remaining))[j] == Rows(p)[j % p.rows]
    decreases remaining
  {
    hide Moves, Slice, SameColumns, RowAt;
    if remaining > 0 {
      var take := if remaining < p.rows then remaining else p.rows;
      PrefixMoves(p, take);
      PadPartsRows(p, remaining - take);
      var rest := PadParts(p, remaining - take);
      assert PadParts(p, remaining)[1..] == rest;
      assert AllRows(PadParts(p, remaining)) == Rows(p)[..take] + AllRows(rest);
      forall j | 0 <= j < remaining
        ensures AllRows(PadParts(p, remaining))[j] == Rows(p)[j % p.rows]
      {
        DivisionShift(j, p.rows);
      }
    }
  }

  // The rows of p followed by its rows in turn are its rows modulo their number.
  lemma CyclicRows<T>(rows: seq<T>, more: seq<T>, i: nat)
    requires i < |rows| + |more| && rows != []
    requires forall j :: 0 <= j < |more| ==> more[j] == rows[j % |rows|]
    ensures (rows + more)[i] == rows[i % |rows|]
  {
    DivisionShift(i, |rows|);
  }

  lemma PaddedIsConcat<T>(p: Proto<T>, padSize: nat) returns (more: seq<Row<T>>)
    requires p.Valid() && p.rows > 0
    ensures |more| == padSize && forall j :: 0 <= j < padSize ==> more[j] == Rows(p)[j % p.rows]
    ensures var r := Concatenate([p] + PadParts(p, padSize));
            r.Ok? && r.value.Valid() && SameColumns(p, r.value) && Rows(r.value) == Rows(p) + more
  {
    PadPartsRows(p, padSize);
    var parts := [p] + PadParts(p, padSize);
    more := AllRows(PadParts(p, padSize));
    assert parts[0] == p && parts[1..] == PadParts(p, padSize);
    assert Alike(parts);
    hide PadParts, Concatenate, SameColumns, RowAt;
    ConcatRows(parts);
  }

  // Padding succeeds on every batch; row i of the result is row i mod n of the original.
  lemma PaddedRows<T>(p: Proto<T>, divisor: nat)
    requires p.Valid() && divisor > 0
    ensures Padded(p, divisor).Ok?
    ensures var (q, padSize) := Padded(p, divisor).value;
            q.Valid() && SameColumns(p, q) && q.rows == p.rows + padSize && q.rows % divisor == 0 && padSize < divisor
            && (padSize > 0 ==> p.rows > 0)
            && forall i :: 0 <= i < q.rows ==> p.rows > 0 && Rows(q)[i] == Rows(p)[i % p.rows]
  {
    var more := PaddedParts(p, divisor);
    hide Padded, SameColumns, Rows;
    var q := Padded(p, divisor).value.0;
    RowsSize(p);
    RowsSize(q);
    forall i | 0 <= i < q.rows
      ensures p.rows > 0 && Rows(q)[i] == Rows(p)[i % p.rows]
    {
      CyclicRows(Rows(p), more, i);
    }
  }

  lemma RowsSize<T>(p: Proto<T>)
    requires p.Valid()
    ensures |Rows(p)| == p.rows
  {
  }

  lemma PaddedParts<T>(p: Proto<T>, divisor: nat) returns (more: seq<Row<T>>)
    requires p.Valid() && divisor > 0
    ensures Padded(p, divisor).Ok?
    ensures var (q, padSize) := Padded(p, divisor).value;
            q.Valid() && SameColumns(p, q) && q.rows == p.rows + padSize && q.rows % divisor == 0 && padSize < divisor
            && (padSize > 0 ==> p.rows > 0)
            && |more| == padSize && Rows(q) == Rows(p) + more
            && forall j :: 0 <= j < padSize ==> more[j] == Rows(p)[j % p.rows]
  {
    hide PadParts, Concatenate, AllRows, RowAt, SameColumns;
    more := [];
    if p.rows % divisor != 0 {
      RoundUp(p.rows, divisor);
      more := PaddedIsConcat(p, divisor - p.rows % divisor);
      hide Rows;
      var q := Padded(p, divisor).value.0;
      RowsSize(p);
      RowsSize(q);
    } else {
      SameColumnsItself(p);
    }
  }

  lemma SameColumnsItself<T>(p: Proto<T>)
    ensures SameColumns(p, p)
  {
  }

  lemma RoundUp(n: nat, d: nat)
    requires d > 0
    ensures (n + (d - n % d)) % d == 0
  {
    assert n + (d - n % d) == (n / d + 1) * d + 0;
    Quotient(n + (d - n % d), d, n / d + 1, 0);
  }

  // ------------------------------------------------------------------ distribution

  lemma {:induction false} AllRowsSnoc<T>(ps: seq<Proto<T>>, q: Proto<T>)
    requires q.Valid() && forall i :: 0 <= i < |ps| ==> ps[i].Valid()
    ensures AllRows(ps + [q]) == AllRows(ps) + Rows(q)
  {
    if ps == [] {
      assert ps + [q] == [q] && AllRows([q]) == Rows(q) + AllRows([q][1..]);
    } else {
      assert (ps + [q])[0] == ps[0] && (ps + [q])[1..] == ps[1..] + [q];
      AllRowsSnoc(ps[1..], q);
    }
  }

  lemma ChunkRows<T>(p: Proto<T>, chunks: nat, i: nat)
    requires p.Valid() && p.Stored()
    requires chunks > 0 && i < chunks && (p.hasBatch ==> |ChunkSizes(p.rows, chunks)| == chunks)
    ensures CutAt(p, chunks, i) <= CutAt(p, chunks, i + 1) <= p.rows
    ensures ChunkAt(p, chunks, i).Valid() && SameColumns(p, ChunkAt(p, chunks, i))
    ensures Rows(ChunkAt(p, chunks, i)) == Rows(p)[CutAt(p, chunks, i)..CutAt(p, chunks, i + 1)]
  {
    ChunkMoves(p, chunks, i);
    hide CutAt, ChunkAt, Moves, SameColumns, RowAt;
    SpanRows(p, CutAt(p, chunks, i), CutAt(p, chunks, i + 1), ChunkAt(p, chunks, i));
  }

  ghost predicate IsCut<T>(rows: seq<Row<T>>, part: Proto<T>, cuts: seq<nat>, j: nat)
    requires part.Valid() && j + 1 < |cuts|
  {
    cuts[j] <= cuts[j + 1] <= |rows| && Rows(part) == rows[cuts[j]..cuts[j + 1]]
  }

  lemma {:induction false} CutRows<T>(rows: seq<Row<T>>, cs: seq<Proto<T>>, cuts: seq<nat>, i: nat)
    requires |cuts| == |cs| + 1 && i <= |cs| && cuts[0] == 0
    requires forall j :: 0 <= j < |cs| ==> cs[j].Valid()
    requires forall j :: 0 <= j < |cs| ==> IsCut(rows, cs[j], cuts, j)
    ensures cuts[i] <= |rows| && AllRows(cs[..i]) == rows[..cuts[i]]
  {
    hide RowAt, Rows;
    if i > 0 {
      CutRows(rows, cs, cuts, i - 1);
      AllRowsSnoc(cs[..i - 1], cs[i - 1]);
      assert cs[..i] == cs[..i - 1] + [cs[i - 1]];
      assert IsCut(rows, cs[i - 1], cuts, i - 1);
    }
  }

  function CutPoints<T>(p: Proto<T>, chunks: nat): seq<nat>
    requires chunks > 0 && (p.hasBatch ==> |ChunkSizes(p.rows, chunks)| == chunks)
  {
    seq(chunks + 1, j requires 0 <= j <= chunks => CutAt(p, chunks, j))
  }

  lemma ChunkIsCut<T>(p: Proto<T>, chunks: nat, j: nat)
    requires p.Valid() && p.Stored()
    requires chunks > 0 && j < chunks && (p.hasBatch ==> |ChunkSizes(p.rows, chunks)| == chunks)
    ensures ChunkAt(p, chunks, j).Valid() && SameColumns(p, ChunkAt(p, chunks, j))
    ensures IsCut(Rows(p), ChunkAt(p, chunks, j), CutPoints(p, chunks), j)
  {
    ChunkRows(p, chunks, j);
    RowsSize(p);
    hide ChunkAt, CutAt, SameColumns, Rows;
  }

  // Chunking loses no row and keeps their order.
  lemma ChunksRows<T>(p: Proto<T>, chunks: nat, paddingEnabled: bool)
    requires p.Valid() && p.Stored() && Chunks(p, chunks, paddingEnabled).Ok?
    ensures var cs := Chunks(p, chunks, paddingEnabled).value;
            (forall j :: 0 <= j < |cs| ==> cs[j].Valid() && SameColumns(p, cs[j]))
            && AllRows(cs) == Rows(p)
  {
    CutsCover(p, chunks, paddingEnabled);
    RowsSize(p);
    hide ChunkAt, CutAt, SameColumns, Rows, IsCut;
    var cs := Chunks(p, chunks, paddingEnabled).value;
    forall j | 0 <= j < chunks
      ensures cs[j].Valid() && SameColumns(p, cs[j]) && IsCut(Rows(p), cs[j], CutPoints(p, chunks), j)
    {
      ChunkIsCut(p, chunks, j);
    }
    CutRows(Rows(p), cs, CutPoints(p, chunks), chunks);
    assert cs[..chunks] == cs && Rows(p)[..p.rows] == Rows(p);
  }

  function MapRows<T, U>(f: Row<T> -> Row<U>, rows: seq<Row<T>>): seq<Row<U>> {
    seq(|rows|, i requires 0 <= i < |rows| => f(rows[i]))
  }

  // The workers' outputs: what f makes of the rows of each chunk.
  ghost predicate RowWise<T, U>(f: Row<T> -> Row<U>, ins: seq<Proto<T>>, outs: seq<Proto<U>>) {
    && |ins| == |outs|
    && (forall i :: 0 <= i < |ins| ==> ins[i].Valid() && outs[i].Valid() && Rows(outs[i]) == MapRows(f, Rows(ins[i])))
  }

  lemma {:induction false} RowWiseAll<T, U>(f: Row<T> -> Row<U>, ins: seq<Proto<T>>, outs: seq<Proto<U>>)
    requires RowWise(f, ins, outs)
    ensures AllRows(outs) == MapRows(f, AllRows(ins))
  {
    if ins != [] {
      RowWiseAll(f, ins[1..], outs[1..]);
      assert AllRows(outs) == MapRows(f, Rows(ins[0])) + MapRows(f, AllRows(ins[1..]));
    }
  }

  // Pad to k, chunk into k, let every worker map f over its rows, concatenate and unpad:
  // the same as mapping f over the original rows, for every row-wise f, every k and all data.
  lemma DistributionIsTransparent<T, U>(p: Proto<T>, k: nat, f: Row<T> -> Row<U>, outs: seq<Proto<U>>)
    requires p.Valid() && p.rows > 0 && k > 0
    requires Padded(p, k).Ok? && Chunks(Padded(p, k).value.0, k, false).Ok?
    requires RowWise(f, Chunks(Padded(p, k).value.0, k, false).value, outs) && Alike(outs)
    ensures var r := Concatenate(outs);
            r.Ok? && r.value.Valid()
            && var back := Unpad(r.value, Padded(p, k).value.1);
               back.Valid() && Rows(back) == MapRows(f, Rows(p))
  {
    hide Chunks, Padded, Concatenate, SameColumns, RowAt, Slice;
    var (padded, padSize) := Padded(p, k).value;
    PaddedRows(p, k);
    StoredRows(padded);
    ChunksRows(padded, k, false);
    RowWiseAll(f, Chunks(padded, k, false).value, outs);
    hide RowWise;
    ConcatRows(outs);
    hide Alike;
    var r := Concatenate(outs).value;
    MappedPrefix(f, Rows(p), Rows(padded), Rows(r));
    if padSize != 0 {
      PrefixMoves(r, 0 - padSize);
    }
  }

  lemma StoredRows<T>(p: Proto<T>)
    requires p.Valid() && p.rows > 0
    ensures p.Stored()
  {
  }

  lemma MappedPrefix<T, U>(f: Row<T> -> Row<U>, rows: seq<Row<T>>, padded: seq<Row<T>>, out: seq<Row<U>>)
    requires 0 < |rows| <= |padded| && out == MapRows(f, padded)
    requires forall i :: 0 <= i < |padded| ==> padded[i] == rows[i % |rows|]
    ensures out[..|rows|] == MapRows(f, rows)
  {
    forall i | 0 <= i < |rows|
      ensures padded[i] == rows[i]
    {
      DivisionShift(i, |rows|);
    }
  }

  // And nothing on that path can fail.
  lemma DistributionNeverFails<T>(p: Proto<T>, k: nat)
    requires p.Valid() && k > 0
    ensures Padded(p, k).Ok? && Chunks(Padded(p, k).value.0, k, false).Ok?
  {
    PaddedRows(p, k);
    ChunksExactlyWhen(Padded(p, k).value.0, k, false);
  }

  // ------------------------------------------------------------------ splitting by size

  // data[from:from + size], data[from + size:from + 2 * size], ...
  function SplitFrom<T>(p: Proto<T>, size: nat, from: nat): seq<Proto<T>>
    requires size > 0
    decreases if from < p.rows then p.rows - from else 0
  {
    if from >= p.rows then []
    else [Slice(p, Some(from), Some(from + size), 1).value] + SplitFrom(p, size, from + size)
  }

  function Split<T>(p: Proto<T>, size: nat): Result<seq<Proto<T>>, Error> {
    if size == 0 then Err(BadStep) else Ok(SplitFrom(p, size, 0))
  }

  lemma SliceRows<T>(p: Proto<T>, from: nat, end: nat)
    requires p.Valid() && p.Stored() && from <= p.rows
    ensures Slice(p, Some(from), Some(end), 1).Ok?
    ensures var q, hi := Slice(p, Some(from), Some(end), 1).value, if end < p.rows then end else p.rows;
            q.Valid() && SameColumns(p, q) && Rows(q) == if from < hi then Rows(p)[from..hi] else []
  {
    SliceMoves(p, from, end);
    hide Moves, SameColumns, RowAt, Slice;
    SpanRows(p, from, if end < p.rows then end else p.rows, Slice(p, Some(from), Some(end), 1).value);
  }

  lemma SliceMoves<T>(p: Proto<T>, from: nat, end: nat)
    requires p.Valid() && p.Stored() && from <= p.rows
    ensures Slice(p, Some(from), Some(end), 1).Ok?
    ensures Moves(p, Span(from, if end < p.rows then end else p.rows), Slice(p, Some(from), Some(end), 1).value)
  {
    var hi := Clamp(end, p.rows);
    StrideOne(from, hi);
    PickMoves(p, Span(from, hi));
    hide Moves;
  }

  // Splitting keeps all rows in order; every part has `size` rows except a shorter, non-empty last one.
  lemma {:induction false} SplitRows<T>(p: Proto<T>, size: nat, from: nat)
    requires p.Valid() && size > 0 && from <= p.rows
    ensures var parts := SplitFrom(p, size, from);
            (forall j :: 0 <= j < |parts| ==> parts[j].Valid() && SameColumns(p, parts[j]) && 0 < parts[j].rows <= size)
            && (forall j :: 0 <= j < |parts| - 1 ==> parts[j].rows == size)
            && AllRows(parts) == Rows(p)[from..]
    decreases p.rows - from
  {
    hide Moves, Slice, SameColumns, RowAt;
    if from < p.rows {
      SliceRows(p, from, from + size);
      var first, rest := Slice(p, Some(from), Some(from + size), 1).value, SplitFrom(p, size, from + size);
      RowsSize(first);
      RowsSize(p);
      if from + size < p.rows {
        SplitRows(p, size, from + size);
      } else {
        assert rest == [];
      }
      var parts := SplitFrom(p, size, from);
      assert parts == [first] + rest && parts[1..] == rest;
      hide Rows, SplitFrom;
      assert AllRows(parts) == Rows(first) + AllRows(rest);
    }
  }

  lemma {:induction false} SplitPart<T>(p: Proto<T>, size: nat, from: nat, i: nat, at: nat)
    requires size > 0 && i < |SplitFrom(p, size, from)| && at == from + i * size
    ensures at < p.rows && Slice(p, Some(at), Some(at + size), 1).Ok?
    ensures SplitFrom(p, size, from)[i] == Slice(p, Some(at), Some(at + size), 1).value
    decreases i
  {
    SliceOk(p, at, at + size);
    hide Slice;
    if i > 0 {
      Peel(i, size);
      SplitPart(p, size, from + size, i - 1, at);
    }
  }

  lemma SliceOk<T>(p: Proto<T>, from: int, end: int)
    ensures Slice(p, Some(from), Some(end), 1).Ok?
  {
  }

  // Part i of a split holds the rows from i * size on.
  lemma SplitMoves<T>(p: Proto<T>, size: nat, i: nat)
    requires p.Valid() && p.Stored() && Split(p, size).Ok? && i < |Split(p, size).value|
    ensures var at := i * size;
            Moves(p, Span(at, if at + size < p.rows then at + size else p.rows), Split(p, size).value[i])
  {
    hide Moves, Slice, SplitFrom, Span;
    var at := i * size;
    SplitPart(p, size, 0, i, at);
    SliceMoves(p, at, at + size);
  }
}
