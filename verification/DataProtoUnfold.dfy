/** Unfolding columns into several rows each. */
module DataProtoUnfold {
  import opened Wrappers
  import opened Arithmetic
  import opened TorchRows
  import opened DataProto

  // ------------------------------------------------------------------ unfolding columns

  // Columns whose entries are themselves sequences: the second dimension of the tensor.
  predicate Rectangular<T>(col: seq<seq<T>>, width: nat) {
    forall i :: 0 <= i < |col| ==> |col[i]| == width
  }

  // reshape from [rows, n * width] to [rows * n, width], row-major.
  function Reshape<T>(col: seq<seq<T>>, width: nat): seq<seq<T>>
    requires width > 0
  {
    Pieces(Concat(col), width)
  }

  // Entry p of the reshaped column is part p mod n of row p div n, as the repeated columns have row p div n.
  lemma {:induction false} ReshapeEntry<T>(col: seq<seq<T>>, n: nat, width: nat, p: nat)
    requires n > 0 && width > 0 && Rectangular(col, n * width) && p < |col| * n
    ensures |Reshape(col, width)| == |col| * n
    ensures var at := (p % n) * width;
            p / n < |col| && at + width <= n * width && at + width <= |col[p / n]|
            && Reshape(col, width)[p] == col[p / n][at..at + width]
  {
    CellInRange(|col|, n, p);
    PartFits(p % n, n, width);
    var head, rest := col[0], col[1..];
    PiecesAppend(head, Concat(rest), width, n);
    PiecesEven(head, width, n);
    Peel(|col|, n);
    DivisionShift(p, n);
    if rest == [] {
      assert Concat(rest) == [];
    }
    if p < n {
      PieceOf(head, n, width, p);
      ReshapeSize(rest, n, width);
    } else {
      ReshapeEntry(rest, n, width, p - n);
    }
  }

  lemma PartFits(i: nat, n: nat, width: nat)
    requires i < n
    ensures i * width + width <= n * width
  {
    ScaleMonotone(i + 1, n, width);
  }

  lemma {:induction false} ReshapeSize<T>(col: seq<seq<T>>, n: nat, width: nat)
    requires n > 0 && width > 0 && Rectangular(col, n * width)
    ensures |Reshape(col, width)| == |col| * n
  {
    if col != [] {
      PiecesAppend(col[0], Concat(col[1..]), width, n);
      PiecesEven(col[0], width, n);
      Peel(|col|, n);
      ReshapeSize(col[1..], n, width);
    }
  }

  lemma {:induction false} PieceOf<T>(s: seq<T>, n: nat, width: nat, i: nat)
    requires width > 0 && |s| == n * width && i < n
    ensures |Pieces(s, width)| == n && i * width + width <= n * width
    ensures Pieces(s, width)[i] == s[i * width..i * width + width]
    decreases n
  {
    PartFits(i, n, width);
    PiecesEven(s, width, n);
    Peel(n, width);
    if n > 1 {
      ScaleMonotone(1, n - 1, width);
      assert Pieces(s, width) == [s[..width]] + Pieces(s[width..], width);
      if i > 0 {
        Peel(i, width);
        PieceOf(s[width..], n - 1, width, i - 1);
        assert Pieces(s, width)[i] == Pieces(s[width..], width)[i - 1];
      }
    }
  }

  function WidthOf<T>(col: seq<seq<T>>): nat {
    if col == [] then 0 else |col[0]|
  }

  predicate AllRectangular<T>(cols: Columns<seq<T>>) {
    forall k :: k in cols ==> Rectangular(cols[k], WidthOf(cols[k]))
  }

  predicate Splits(splitKeys: Option<set<string>>, k: string) {
    splitKeys.Some? && k in splitKeys.value
  }

  // shape[1] // n columns per part; the element counts must match.
  function UnfoldColumn<T>(col: seq<seq<T>>, n: nat): seq<seq<T>>
    requires n > 0
  {
    var width := Div(WidthOf(col), n);
    if width == 0 then Copies([], |col| * n) else Reshape(col, width)
  }

  predicate CanUnfold<T>(cols: Columns<seq<T>>, n: nat, splitKeys: Option<set<string>>) {
    forall k :: k in cols && Splits(splitKeys, k) ==> n > 0 && WidthOf(cols[k]) % n == 0
  }

  function UnfoldTensors<T>(cols: Columns<seq<T>>, n: nat, splitKeys: Option<set<string>>): Columns<seq<T>>
    requires CanUnfold(cols, n, splitKeys)
  {
    map k | k in cols :: if Splits(splitKeys, k) then UnfoldColumn(cols[k], n) else TorchRepeatInterleave(cols[k], n)
  }

  function UnfoldOthers<T>(cols: Columns<seq<T>>, n: nat, splitKeys: Option<set<string>>): Columns<seq<T>>
    requires CanUnfold(cols, n, splitKeys)
  {
    map k | k in cols :: if Splits(splitKeys, k) then UnfoldColumn(cols[k], n) else NumpyRepeat(cols[k], n)
  }

  // The numpy columns are tested with `key in split_keys` even when no split keys are given.
  function UnfoldColumnChunks<T>(p: Proto<seq<T>>, n: nat, splitKeys: Option<set<string>>): Result<Proto<seq<T>>,
                                 Error> {
    if !CanUnfold(p.tensors, n, splitKeys) then Err(NotDivisible)
    else if splitKeys.None? && p.others != map[] then Err(NoSplitKeys)
    else if !CanUnfold(p.others, n, splitKeys) then Err(NotDivisible)
    else Ok(Proto(p.rows * n, p.hasBatch, UnfoldTensors(p.tensors, n, splitKeys), UnfoldOthers(p.others, n, splitKeys)))
  }

  // The entry at position i: the part i mod n of a split column's row i div n, or that whole row.
  function UnfoldedEntry<T>(col: seq<seq<T>>, n: nat, split: bool, i: nat): seq<T>
    requires i < |col| * n && (split ==> Rectangular(col, WidthOf(col)) && WidthOf(col) % n == 0)
  {
    CellInRange(|col|, n, i);
    if !split then col[i / n]
    else
      var width := Div(WidthOf(col), n);
      assert width * n == n * width == WidthOf(col);
      PartFits(i % n, n, width);
      col[i / n][(i % n) * width..(i % n) * width + width]
  }

  lemma ExactWidth(w: nat, n: nat)
    requires n > 0 && w % n == 0
    ensures w == n * Div(w, n) == Div(w, n) * n
  {
  }

  lemma UnfoldColumnEntry<T>(col: seq<seq<T>>, n: nat, i: nat)
    requires Rectangular(col, WidthOf(col)) && n > 0 && WidthOf(col) % n == 0
    ensures |UnfoldColumn(col, n)| == |col| * n
    ensures i < |col| * n ==> UnfoldColumn(col, n)[i] == UnfoldedEntry(col, n, true, i)
  {
    hide Reshape, WidthOf, Div;
    var width := Div(WidthOf(col), n);
    ExactWidth(WidthOf(col), n);
    if i < |col| * n {
      EntryAt(col, n, i);
    }
    if width > 0 {
      ReshapeSize(col, n, width);
      if i < |col| * n {
        ReshapeEntry(col, n, width, i);
      }
    }
    hide UnfoldedEntry, Rectangular;
  }

  lemma EntryAt<T>(col: seq<seq<T>>, n: nat, i: nat)
    requires Rectangular(col, WidthOf(col)) && n > 0 && WidthOf(col) % n == 0 && i < |col| * n
    ensures var width := Div(WidthOf(col), n);
            i / n < |col| && (i % n) * width + width <= |col[i / n]|
            && UnfoldedEntry(col, n, true, i) == col[i / n][(i % n) * width..(i % n) * width + width]
            && (width == 0 ==> UnfoldedEntry(col, n, true, i) == [])
  {
    hide WidthOf, Div;
    ExactWidth(WidthOf(col), n);
    CellInRange(|col|, n, i);
    PartFits(i % n, n, Div(WidthOf(col), n));
  }

  ghost predicate Unfolded<T>(cols: Columns<seq<T>>, n: nat, splitKeys: Option<set<string>>, rows: nat,
                              out: Columns<seq<T>>)
    requires CanUnfold(cols, n, splitKeys) && AllRectangular(cols)
  {
    && out.Keys == cols.Keys
    && (forall k :: k in out ==> |cols[k]| * n == |out[k]| == rows)
    && (forall k, i :: k in out && 0 <= i < rows ==> out[k][i] == UnfoldedEntry(cols[k], n, Splits(splitKeys, k), i))
  }

  lemma TensorsUnfolded<T>(cols: Columns<seq<T>>, n: nat, splitKeys: Option<set<string>>, rows: nat)
    requires CanUnfold(cols, n, splitKeys) && AllRectangular(cols) && forall k :: k in cols ==> |cols[k]| * n == rows
    ensures Unfolded(cols, n, splitKeys, rows, UnfoldTensors(cols, n, splitKeys))
  {
    var out := UnfoldTensors(cols, n, splitKeys);
    forall k | k in cols
      ensures |out[k]| == rows
      ensures forall i :: 0 <= i < rows ==> out[k][i] == UnfoldedEntry(cols[k], n, Splits(splitKeys, k), i)
    {
      if Splits(splitKeys, k) {
        UnfoldWhole(cols[k], n);
      }
    }
  }

  lemma OthersUnfolded<T>(cols: Columns<seq<T>>, n: nat, splitKeys: Option<set<string>>, rows: nat)
    requires CanUnfold(cols, n, splitKeys) && AllRectangular(cols) && forall k :: k in cols ==> |cols[k]| * n == rows
    ensures Unfolded(cols, n, splitKeys, rows, UnfoldOthers(cols, n, splitKeys))
  {
    var out := UnfoldOthers(cols, n, splitKeys);
    forall k | k in cols
      ensures |out[k]| == rows
      ensures forall i :: 0 <= i < rows ==> out[k][i] == UnfoldedEntry(cols[k], n, Splits(splitKeys, k), i)
    {
      if Splits(splitKeys, k) {
        UnfoldWhole(cols[k], n);
      } else {
        RepeatAgree(cols[k], n);
      }
    }
  }

  // Unfolding keeps the columns aligned: at every position all of them come from the same original row,
  // the split ones with the same part of it.
  lemma UnfoldAligned<T>(p: Proto<seq<T>>, n: nat, splitKeys: Option<set<string>>)
    requires p.Valid() && AllRectangular(p.tensors) && AllRectangular(p.others)
    requires UnfoldColumnChunks(p, n, splitKeys).Ok?
    ensures var q := UnfoldColumnChunks(p, n, splitKeys).value;
            q.Valid() && SameColumns(p, q) && q.rows == p.rows * n
            && Unfolded(p.tensors, n, splitKeys, q.rows, q.tensors)
              && Unfolded(p.others, n, splitKeys, q.rows, q.others)
  {
    TensorsUnfolded(p.tensors, n, splitKeys, p.rows * n);
    OthersUnfolded(p.others, n, splitKeys, p.rows * n);
    hide UnfoldTensors, UnfoldOthers, AllRectangular, CanUnfold;
    var q := UnfoldColumnChunks(p, n, splitKeys).value;
    assert p.others == map[] <==> p.others.Keys == {};
    assert q.others == map[] <==> q.others.Keys == {};
    assert p.tensors == map[] ==> q.tensors.Keys == {};
  }

  lemma UnfoldWhole<T>(col: seq<seq<T>>, n: nat)
    requires Rectangular(col, WidthOf(col)) && n > 0 && WidthOf(col) % n == 0
    ensures |UnfoldColumn(col, n)| == |col| * n
    ensures forall i :: 0 <= i < |col| * n ==> UnfoldColumn(col, n)[i] == UnfoldedEntry(col, n, true, i)
  {
    UnfoldColumnEntry(col, n, 0);
    forall i | 0 <= i < |col| * n
      ensures UnfoldColumn(col, n)[i] == UnfoldedEntry(col, n, true, i)
    {
      UnfoldColumnEntry(col, n, i);
    }
  }

  // Leaving the split keys out repeats all columns, as the documentation says, only if there are no numpy columns.
  lemma UnfoldWithoutKeysExactlyWhen<T>(p: Proto<seq<T>>, n: nat)
    ensures UnfoldColumnChunks(p, n, None).Ok? <==> p.others == map[]
  {
  }

  // Which calls succeed: the number of parts divides the width of every column to be split, and no numpy columns are
  // there without split keys.
  lemma UnfoldExactlyWhen<T>(p: Proto<seq<T>>, n: nat, splitKeys: Option<set<string>>)
    ensures UnfoldColumnChunks(p, n, splitKeys).Ok? <==>
            if splitKeys.None? then p.others == map[]
            else AllDivide(p.tensors, n, splitKeys.value) && AllDivide(p.others, n, splitKeys.value)
  {
    hide UnfoldTensors, UnfoldOthers;
    if splitKeys.Some? {
      DivideIsCan(p.tensors, n, splitKeys.value);
      DivideIsCan(p.others, n, splitKeys.value);
      hide CanUnfold;
    }
  }

  ghost predicate AllDivide<T>(cols: Columns<seq<T>>, n: nat, keys: set<string>) {
    forall k :: k in cols && k in keys ==> n > 0 && (cols[k] != [] ==> |cols[k][0]| % n == 0)
  }

  lemma DivideIsCan<T>(cols: Columns<seq<T>>, n: nat, keys: set<string>)
    ensures CanUnfold(cols, n, Some(keys)) <==> AllDivide(cols, n, keys)
  {
  }

  // The entry that an unfolded column has for a row: one of its n equal parts, or all of it.
  predicate EntryIs<T(==)>(row: seq<T>, split: bool, n: nat, part: nat, entry: seq<T>)
    requires n > 0
  {
    if split then
      var w := |row| / n;
      |row| == w * n && part * w + w <= |row| && entry == row[part * w..part * w + w]
    else entry == row
  }

  // Position by position: part i mod n of row i div n in the columns that are split, the whole row in all others.
  lemma UnfoldedTensor<T>(p: Proto<seq<T>>, n: nat, splitKeys: Option<set<string>>, k: string, i: nat)
    requires p.Valid() && AllRectangular(p.tensors) && AllRectangular(p.others)
    requires UnfoldColumnChunks(p, n, splitKeys).Ok? && k in p.tensors && i < p.rows * n
    ensures n > 0 && i / n < p.rows
    ensures var out := UnfoldColumnChunks(p, n, splitKeys).value.tensors;
            && k in out && i < |out[k]|
            && EntryIs(p.tensors[k][i / n], splitKeys.Some? && k in splitKeys.value, n, i % n, out[k][i])
  {
    UnfoldAligned(p, n, splitKeys);
    hide UnfoldColumnChunks, Unfolded, EntryIs, AllRectangular;
    UnfoldedAt(p.tensors, n, splitKeys, p.rows * n, UnfoldColumnChunks(p, n, splitKeys).value.tensors, k, i);
  }

  lemma UnfoldedOther<T>(p: Proto<seq<T>>, n: nat, splitKeys: Option<set<string>>, k: string, i: nat)
    requires p.Valid() && AllRectangular(p.tensors) && AllRectangular(p.others)
    requires UnfoldColumnChunks(p, n, splitKeys).Ok? && k in p.others && i < p.rows * n
    ensures n > 0 && i / n < p.rows
    ensures var out := UnfoldColumnChunks(p, n, splitKeys).value.others;
            && k in out && i < |out[k]|
            && EntryIs(p.others[k][i / n], splitKeys.Some? && k in splitKeys.value, n, i % n, out[k][i])
  {
    UnfoldAligned(p, n, splitKeys);
    hide UnfoldColumnChunks, Unfolded, EntryIs, AllRectangular;
    UnfoldedAt(p.others, n, splitKeys, p.rows * n, UnfoldColumnChunks(p, n, splitKeys).value.others, k, i);
  }

  lemma UnfoldedAt<T>(cols: Columns<seq<T>>, n: nat, splitKeys: Option<set<string>>, rows: nat, out: Columns<seq<T>>,
                      k: string, i: nat)
    requires CanUnfold(cols, n, splitKeys) && AllRectangular(cols) && Unfolded(cols, n, splitKeys, rows, out)
    requires k in cols && i < rows
    ensures n > 0 && i / n < |cols[k]| && k in out && i < |out[k]|
    ensures EntryIs(cols[k][i / n], splitKeys.Some? && k in splitKeys.value, n, i % n, out[k][i])
  {
    var col := cols[k];
    assert k in out.Keys && |col| * n == rows;
    CellInRange(|col|, n, i);
    assert out[k][i] == UnfoldedEntry(col, n, Splits(splitKeys, k), i);
    if Splits(splitKeys, k) {
      hide Unfolded, UnfoldedEntry;
      EntryAt(col, n, i);
      ExactWidth(WidthOf(col), n);
      assert |col[i / n]| == WidthOf(col);
    }
  }
}
