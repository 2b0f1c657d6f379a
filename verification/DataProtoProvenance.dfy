/** Any sequence of operations, unfolding and concatenation with other data included: at every position all columns
    still hold what belongs together. */
module DataProtoProvenance {
  import opened Wrappers
  import opened Arithmetic
  import opened DataProto
  import opened DataProtoChunks
  import opened DataProtoOperations
  import opened DataProtoUnfold

  type Data<E> = Proto<seq<E>>

  // ------------------------------------------------------------------ where an entry comes from

  // One unfolding on the way: which of how many parts was taken of the entries under these keys.
  datatype Cutting = Cutting(keys: set<string>, parts: nat, index: nat)

  // Where a position of the result comes from: a row of one of the inputs, and the parts taken of it.
  datatype Origin = Origin(source: nat, row: nat, cuts: seq<Cutting>)

  function Part<E>(entry: seq<E>, parts: nat, index: nat): seq<E> {
    var width := if parts > 0 then Div(|entry|, parts) else 0;
    if index * width + width <= |entry| then entry[index * width..index * width + width] else []
  }

  // What is left of the entry of column k.
  function View<E>(k: string, entry: seq<E>, cuts: seq<Cutting>): seq<E> {
    if cuts == [] then entry
    else
      var inner, c := View(k, entry, cuts[..|cuts| - 1]), cuts[|cuts| - 1];
      if k in c.keys then Part(inner, c.parts, c.index) else inner
  }

  // All columns of the row, tensor and numpy, come from one row of one input, with the same parts taken.
  ghost predicate From<E>(sources: seq<Data<E>>, o: Origin, row: Row<seq<E>>) {
    o.source < |sources| && sources[o.source].Valid() && o.row < sources[o.source].rows
    && var src := RowAt(sources[o.source], o.row);
       && row.tensors.Keys == src.tensors.Keys && row.others.Keys == src.others.Keys
       && (forall k <- row.tensors.Keys :: row.tensors[k] == View(k, src.tensors[k], o.cuts))
       && (forall k <- row.others.Keys :: row.others[k] == View(k, src.others[k], o.cuts))
  }

  ghost predicate AllFrom<E>(sources: seq<Data<E>>, os: seq<Origin>, rows: seq<Row<seq<E>>>) {
    |os| == |rows| && forall i :: 0 <= i < |rows| ==> From(sources, os[i], rows[i])
  }

  // ------------------------------------------------------------------ the steps

  datatype Step<E> = Rowwise(op: Op) | Unfold(parts: nat, splitKeys: Option<set<string>>)
                   | Join(before: seq<Data<E>>, after: seq<Data<E>>)

  predicate Rect<E>(p: Data<E>) {
    AllRectangular(p.tensors) && AllRectangular(p.others)
  }

  // torch.cat and np.concatenate refuse rows of different width.
  function Joined<E>(p: Data<E>, before: seq<Data<E>>, after: seq<Data<E>>): Result<Data<E>, Error> {
    var r :- Concatenate(before + [p] + after);
    if Rect(r) then Ok(r) else Err(KeyMismatch)
  }

  function ApplyStep<E>(p: Data<E>, step: Step<E>): Result<Data<E>, Error> {
    match step
    case Rowwise(op) => Apply(p, op)
    case Unfold(parts, splitKeys) => UnfoldColumnChunks(p, parts, splitKeys)
    case Join(before, after) => Joined(p, before, after)
  }

  function RunSteps<E>(p: Data<E>, steps: seq<Step<E>>): Result<Data<E>, Error>
    decreases |steps|
  {
    if steps == [] then Ok(p)
    else
      var q :- ApplyStep(p, steps[0]);
      RunSteps(q, steps[1..])
  }

  // The other data that is joined on has the columns of the data it is joined with.
  ghost predicate Matching<E>(p: Data<E>, others: seq<Data<E>>) {
    forall i :: 0 <= i < |others| ==> others[i].Valid() && SameColumns(p, others[i])
  }

  ghost predicate MatchingSteps<E>(p: Data<E>, steps: seq<Step<E>>) {
    forall i :: 0 <= i < |steps| && steps[i].Join? ==> Matching(p, steps[i].before) && Matching(p, steps[i].after)
  }

  // ------------------------------------------------------------------ their origins

  // The rows of further inputs, as they are.
  function Whole(source: nat, rows: nat): seq<Origin> {
    seq(rows, r requires 0 <= r < rows => Origin(source, r, []))
  }

  function WholeAll<E>(first: nat, ps: seq<Data<E>>): seq<Origin>
    decreases |ps|
  {
    if ps == [] then [] else Whole(first, ps[0].rows) + WholeAll(first + 1, ps[1..])
  }

  function KeysOf(splitKeys: Option<set<string>>): set<string> {
    if splitKeys.Some? then splitKeys.value else {}
  }

  function UnfoldOrigins(os: seq<Origin>, parts: nat, keys: set<string>): seq<Origin> {
    seq(|os| * parts, i requires 0 <= i < |os| * parts =>
      CellInRange(|os|, parts, i);
      os[i / parts].(cuts := os[i / parts].cuts + [Cutting(keys, parts, i % parts)]))
  }

  // The inputs after a step, and where its positions come from.
  ghost function StepSources<E>(sources: seq<Data<E>>, step: Step<E>): seq<Data<E>> {
    if step.Join? then sources + step.before + step.after else sources
  }

  ghost function StepOrigins<E>(p: Data<E>, sources: seq<Data<E>>, os: seq<Origin>, step: Step<E>): seq<Origin> {
    match step
    case Rowwise(op) =>
      if p.Valid() && p.HasColumns() && Apply(p, op).Ok? && Within(OpIndex(p, op), |os|) then Gather(os, OpIndex(p, op))
      else []
    case Unfold(parts, splitKeys) => UnfoldOrigins(os, parts, KeysOf(splitKeys))
    case Join(before, after) =>
      WholeAll(|sources|, before) + os + WholeAll(|sources| + |before|, after)
  }

  ghost function RunOrigins<E>(p: Data<E>, sources: seq<Data<E>>, os: seq<Origin>, steps: seq<Step<E>>)
    : (seq<Data<E>>, seq<Origin>)
    decreases |steps|
  {
    if steps == [] || ApplyStep(p, steps[0]).Err? then (sources, os)
    else
      RunOrigins(ApplyStep(p, steps[0]).value, StepSources(sources, steps[0]), StepOrigins(p, sources, os, steps[0]),
                 steps[1..])
  }

  // ------------------------------------------------------------------ one step

  // What holds between steps.
  ghost predicate Tracked<E>(p: Data<E>, sources: seq<Data<E>>, os: seq<Origin>) {
    p.Valid() && p.HasColumns() && Rect(p) && AllFrom(sources, os, Rows(p))
  }

  lemma SourcesKept<E>(sources: seq<Data<E>>, more: seq<Data<E>>, os: seq<Origin>, rows: seq<Row<seq<E>>>)
    requires AllFrom(sources, os, rows)
    ensures AllFrom(sources + more, os, rows)
  {
    forall i | 0 <= i < |rows|
      ensures From(sources + more, os[i], rows[i])
    {
      assert From(sources, os[i], rows[i]);
      assert (sources + more)[os[i].source] == sources[os[i].source];
    }
  }

  lemma AllFromConcat<E>(sources: seq<Data<E>>, a: seq<Origin>, x: seq<Row<seq<E>>>, b: seq<Origin>,
                         y: seq<Row<seq<E>>>)
    requires AllFrom(sources, a, x) && AllFrom(sources, b, y)
    ensures AllFrom(sources, a + b, x + y)
  {
    hide From;
  }

  lemma WholeFrom<E>(sources: seq<Data<E>>, source: nat)
    requires source < |sources| && sources[source].Valid()
    ensures AllFrom(sources, Whole(source, sources[source].rows), Rows(sources[source]))
  {
  }

  lemma {:induction false} WholeAllFrom<E>(sources: seq<Data<E>>, first: nat, ps: seq<Data<E>>)
    requires first + |ps| <= |sources| && sources[first..first + |ps|] == ps
    requires forall i :: 0 <= i < |ps| ==> ps[i].Valid()
    ensures AllFrom(sources, WholeAll(first, ps), AllRows(ps))
    decreases |ps|
  {
    hide From;
    if ps != [] {
      assert sources[first..first + |ps|][0] == sources[first];
      WholeFrom(sources, first);
      assert sources[first + 1..first + |ps|] == ps[1..];
      WholeAllFrom(sources, first + 1, ps[1..]);
      AllFromConcat(sources, Whole(first, ps[0].rows), Rows(ps[0]), WholeAll(first + 1, ps[1..]), AllRows(ps[1..]));
    }
  }

  // Rows that move take their origins along.
  lemma MovedFrom<E>(p: Data<E>, sources: seq<Data<E>>, os: seq<Origin>, ix: seq<nat>, q: Data<E>)
    requires p.Valid() && AllFrom(sources, os, Rows(p)) && Moves(p, ix, q)
    ensures Within(ix, |os|) && AllFrom(sources, Gather(os, ix), Rows(q))
  {
    hide From, RowAt, SameColumns;
    assert |Rows(p)| == p.rows && Rows(q) == Gather(Rows(p), ix);
  }

  lemma MovedRect<E>(p: Data<E>, ix: seq<nat>, q: Data<E>)
    requires p.Valid() && Rect(p) && Moves(p, ix, q)
    ensures Rect(q)
  {
    assert |Rows(q)| == |ix| == q.rows;
    forall k, i | k in q.tensors && 0 <= i < q.rows
      ensures k in p.tensors && ix[i] < |p.tensors[k]| && q.tensors[k][i] == p.tensors[k][ix[i]]
    {
      assert RowAt(q, i) == Rows(q)[i] == Rows(p)[ix[i]] == RowAt(p, ix[i]);
      assert RowAt(q, i).tensors[k] == RowAt(p, ix[i]).tensors[k];
    }
    forall k, i | k in q.others && 0 <= i < q.rows
      ensures k in p.others && ix[i] < |p.others[k]| && q.others[k][i] == p.others[k][ix[i]]
    {
      assert RowAt(q, i) == Rows(q)[i] == Rows(p)[ix[i]] == RowAt(p, ix[i]);
      assert RowAt(q, i).others[k] == RowAt(p, ix[i]).others[k];
    }
    hide Moves, RowAt;
    PickedRect(p.tensors, ix, q.tensors);
    PickedRect(p.others, ix, q.others);
  }

  lemma PickedRect<E>(cols: Columns<seq<E>>, ix: seq<nat>, out: Columns<seq<E>>)
    requires AllRectangular(cols)
    requires forall k :: k in out ==> k in cols && |out[k]| == |ix|
    requires forall k, i :: k in out && 0 <= i < |ix| ==> ix[i] < |cols[k]| && out[k][i] == cols[k][ix[i]]
    ensures AllRectangular(out)
  {
    forall k | k in out
      ensures Rectangular(out[k], WidthOf(out[k]))
    {
      var w := WidthOf(cols[k]);
      assert Rectangular(cols[k], w);
      forall i | 0 <= i < |out[k]|
        ensures |out[k][i]| == w
      {
        assert out[k][i] == cols[k][ix[i]];
      }
    }
  }

  lemma RowwiseTracked<E>(p: Data<E>, sources: seq<Data<E>>, os: seq<Origin>, op: Op)
    requires Tracked(p, sources, os) && Apply(p, op).Ok?
    ensures Tracked(Apply(p, op).value, sources, StepOrigins(p, sources, os, Rowwise(op)))
    ensures SameColumns(p, Apply(p, op).value)
  {
    OpMoves(p, op);
    var ix, q := OpIndex(p, op), Apply(p, op).value;
    hide Apply, OpIndex;
    MovedFrom(p, sources, os, ix, q);
    MovedRect(p, ix, q);
    ColumnsKept(p, ix, q);
  }

  lemma UnfoldedIsPart<E>(col: seq<seq<E>>, parts: nat, split: bool, i: nat)
    requires i < |col| * parts && Rectangular(col, WidthOf(col)) && (split ==> WidthOf(col) % parts == 0)
    ensures i / parts < |col|
    ensures UnfoldedEntry(col, parts, split, i) ==
            if split then Part(col[i / parts], parts, i % parts) else col[i / parts]
    ensures |UnfoldedEntry(col, parts, split, i)| == if split then Div(WidthOf(col), parts) else WidthOf(col)
  {
    CellInRange(|col|, parts, i);
    if split {
      EntryAt(col, parts, i);
      hide UnfoldedEntry;
    }
  }

  lemma UnfoldedRect<E>(cols: Columns<seq<E>>, parts: nat, splitKeys: Option<set<string>>, rows: nat,
                        out: Columns<seq<E>>)
    requires CanUnfold(cols, parts, splitKeys) && AllRectangular(cols) && Unfolded(cols, parts, splitKeys, rows, out)
    ensures AllRectangular(out)
  {
    forall k | k in out
      ensures Rectangular(out[k], WidthOf(out[k]))
    {
      var w := if Splits(splitKeys, k) then Div(WidthOf(cols[k]), parts) else WidthOf(cols[k]);
      forall i | 0 <= i < |out[k]|
        ensures |out[k][i]| == w
      {
        UnfoldedIsPart(cols[k], parts, Splits(splitKeys, k), i);
      }
    }
  }

  lemma ViewStep<E>(k: string, entry: seq<E>, cuts: seq<Cutting>, c: Cutting)
    ensures View(k, entry, cuts + [c]) ==
            if k in c.keys then Part(View(k, entry, cuts), c.parts, c.index) else View(k, entry, cuts)
  {
    assert (cuts + [c])[..|cuts + [c]| - 1] == cuts;
  }

  // One position of the unfolded data.
  lemma UnfoldedFrom<E>(p: Data<E>, sources: seq<Data<E>>, o: Origin, parts: nat, splitKeys: Option<set<string>>,
                        q: Data<E>, i: nat)
    requires p.Valid() && q.Valid() && Rect(p) && SameColumns(p, q) && q.rows == p.rows * parts && i < q.rows
    requires CanUnfold(p.tensors, parts, splitKeys) && CanUnfold(p.others, parts, splitKeys)
    requires Unfolded(p.tensors, parts, splitKeys, q.rows, q.tensors)
    requires Unfolded(p.others, parts, splitKeys, q.rows, q.others)
    requires i / parts < p.rows && From(sources, o, RowAt(p, i / parts))
    ensures From(sources, o.(cuts := o.cuts + [Cutting(KeysOf(splitKeys), parts, i % parts)]), RowAt(q, i))
  {
    hide Part, View, UnfoldedEntry, Rectangular, WidthOf;
    var c := Cutting(KeysOf(splitKeys), parts, i % parts);
    var src, row, now := RowAt(sources[o.source], o.row), RowAt(p, i / parts), RowAt(q, i);
    forall k | k in q.tensors
      ensures now.tensors[k] == View(k, src.tensors[k], o.cuts + [c])
    {
      ColumnUnfolded(k, p.tensors[k], now.tensors[k], src.tensors[k], o.cuts, parts, splitKeys, i);
    }
    forall k | k in q.others
      ensures now.others[k] == View(k, src.others[k], o.cuts + [c])
    {
      ColumnUnfolded(k, p.others[k], now.others[k], src.others[k], o.cuts, parts, splitKeys, i);
    }
  }

  // One of its columns.
  lemma ColumnUnfolded<E>(k: string, col: seq<seq<E>>, entry: seq<E>, original: seq<E>, cuts: seq<Cutting>, parts: nat,
                          splitKeys: Option<set<string>>, i: nat)
    requires i < |col| * parts && Rectangular(col, WidthOf(col)) && (Splits(splitKeys, k) ==> WidthOf(col) % parts == 0)
    requires entry == UnfoldedEntry(col, parts, Splits(splitKeys, k), i)
    requires i / parts < |col| && col[i / parts] == View(k, original, cuts)
    ensures entry == View(k, original, cuts + [Cutting(KeysOf(splitKeys), parts, i % parts)])
  {
    hide Part, View, UnfoldedEntry, Rectangular, WidthOf;
    UnfoldedIsPart(col, parts, Splits(splitKeys, k), i);
    ViewStep(k, original, cuts, Cutting(KeysOf(splitKeys), parts, i % parts));
  }

  lemma UnfoldTracked<E>(p: Data<E>, sources: seq<Data<E>>, os: seq<Origin>, parts: nat, splitKeys: Option<set<string>>)
    requires Tracked(p, sources, os) && UnfoldColumnChunks(p, parts, splitKeys).Ok?
    ensures var q := UnfoldColumnChunks(p, parts, splitKeys).value;
            Tracked(q, sources, UnfoldOrigins(os, parts, KeysOf(splitKeys))) && SameColumns(p, q)
  {
    UnfoldAligned(p, parts, splitKeys);
    UnfoldConditions(p, parts, splitKeys);
    hide UnfoldColumnChunks, Unfolded, From, SameColumns, AllRectangular, CanUnfold;
    var q := UnfoldColumnChunks(p, parts, splitKeys).value;
    UnfoldedRect(p.tensors, parts, splitKeys, q.rows, q.tensors);
    UnfoldedRect(p.others, parts, splitKeys, q.rows, q.others);
    SameHasColumns(p, q);
    UnfoldedAllFrom(p, sources, os, parts, splitKeys, q);
  }

  lemma UnfoldedAllFrom<E>(p: Data<E>, sources: seq<Data<E>>, os: seq<Origin>, parts: nat,
                           splitKeys: Option<set<string>>, q: Data<E>)
    requires p.Valid() && q.Valid() && Rect(p) && SameColumns(p, q) && q.rows == p.rows * parts
    requires CanUnfold(p.tensors, parts, splitKeys) && CanUnfold(p.others, parts, splitKeys)
    requires Unfolded(p.tensors, parts, splitKeys, q.rows, q.tensors)
    requires Unfolded(p.others, parts, splitKeys, q.rows, q.others)
    requires AllFrom(sources, os, Rows(p))
    ensures AllFrom(sources, UnfoldOrigins(os, parts, KeysOf(splitKeys)), Rows(q))
  {
    hide Unfolded, From, RowAt, SameColumns, AllRectangular, CanUnfold;
    var os' := UnfoldOrigins(os, parts, KeysOf(splitKeys));
    forall i | 0 <= i < q.rows
      ensures From(sources, os'[i], Rows(q)[i])
    {
      CellInRange(p.rows, parts, i);
      assert From(sources, os[i / parts], Rows(p)[i / parts]);
      UnfoldedFrom(p, sources, os[i / parts], parts, splitKeys, q, i);
    }
  }

  lemma UnfoldConditions<E>(p: Data<E>, parts: nat, splitKeys: Option<set<string>>)
    requires UnfoldColumnChunks(p, parts, splitKeys).Ok?
    ensures CanUnfold(p.tensors, parts, splitKeys) && CanUnfold(p.others, parts, splitKeys)
  {
  }

  lemma SameHasColumns<E>(p: Data<E>, q: Data<E>)
    requires SameColumns(p, q)
    ensures q.HasColumns() == p.HasColumns()
  {
    assert p.tensors == map[] <==> p.tensors.Keys == {};
    assert q.tensors == map[] <==> q.tensors.Keys == {};
    assert p.others == map[] <==> p.others.Keys == {};
    assert q.others == map[] <==> q.others.Keys == {};
  }

  lemma {:induction false} AllRowsAppend<E>(a: seq<Data<E>>, b: seq<Data<E>>)
    requires forall i :: 0 <= i < |a| ==> a[i].Valid()
    requires forall i :: 0 <= i < |b| ==> b[i].Valid()
    ensures forall i :: 0 <= i < |a + b| ==> (a + b)[i].Valid()
    ensures AllRows(a + b) == AllRows(a) + AllRows(b)
    decreases |a|
  {
    hide Rows;
    if a == [] {
      assert a + b == b;
    } else {
      assert (a + b)[0] == a[0] && (a + b)[1..] == a[1..] + b;
      AllRowsAppend(a[1..], b);
    }
  }

  lemma JoinAlike<E>(p: Data<E>, before: seq<Data<E>>, after: seq<Data<E>>)
    requires p.Valid() && Matching(p, before) && Matching(p, after)
    ensures Alike(before + [p] + after) && SameColumns((before + [p] + after)[0], p)
  {
    var parts := before + [p] + after;
    forall i | 0 <= i < |parts|
      ensures parts[i].Valid() && SameColumns(p, parts[i])
    {
      if i < |before| {
        assert parts[i] == before[i];
      } else if i > |before| {
        assert parts[i] == after[i - |before| - 1];
      }
    }
  }

  lemma JoinTracked<E>(p: Data<E>, sources: seq<Data<E>>, os: seq<Origin>, before: seq<Data<E>>, after: seq<Data<E>>)
    requires Tracked(p, sources, os) && Matching(p, before) && Matching(p, after) && Joined(p, before, after).Ok?
    ensures var q := Joined(p, before, after).value;
            Tracked(q, sources + before + after,
                    WholeAll(|sources|, before) + os + WholeAll(|sources| + |before|, after))
            && SameColumns(p, q)
  {
    JoinRows(p, before, after);
    hide Concatenate, Matching, From, Rows, SameColumns, WholeAll;
    JoinFrom(sources, os, Rows(p), before, after);
  }

  lemma JoinRows<E>(p: Data<E>, before: seq<Data<E>>, after: seq<Data<E>>)
    requires p.Valid() && Matching(p, before) && Matching(p, after)
    ensures var r := Concatenate(before + [p] + after);
            r.Ok? && r.value.Valid() && SameColumns(p, r.value) && r.value.HasColumns() == p.HasColumns()
            && Rows(r.value) == AllRows(before) + Rows(p) + AllRows(after)
  {
    var parts := before + [p] + after;
    JoinAlike(p, before, after);
    ConcatRows(parts);
    PartsRows(p, before, after);
    hide Concatenate, Alike, Rows, SameColumns, AllRows;
    SameAsFirst(p, parts[0], Concatenate(parts).value);
    SameHasColumns(p, Concatenate(parts).value);
  }

  lemma SameAsFirst<E>(p: Data<E>, a: Data<E>, b: Data<E>)
    requires SameColumns(a, p) && SameColumns(a, b)
    ensures SameColumns(p, b)
  {
  }

  lemma PartsRows<E>(p: Data<E>, before: seq<Data<E>>, after: seq<Data<E>>)
    requires p.Valid()
    requires forall i :: 0 <= i < |before| ==> before[i].Valid()
    requires forall i :: 0 <= i < |after| ==> after[i].Valid()
    ensures var parts := before + [p] + after;
            (forall i :: 0 <= i < |parts| ==> parts[i].Valid())
            && AllRows(parts) == AllRows(before) + Rows(p) + AllRows(after)
  {
    hide Rows;
    AllRowsAppend(before, [p]);
    AllRowsAppend(before + [p], after);
    assert [p][1..] == [] && AllRows([p]) == Rows(p) + AllRows([]);
  }

  lemma JoinFrom<E>(sources: seq<Data<E>>, os: seq<Origin>, rows: seq<Row<seq<E>>>, before: seq<Data<E>>,
                    after: seq<Data<E>>)
    requires AllFrom(sources, os, rows)
    requires forall i :: 0 <= i < |before| ==> before[i].Valid()
    requires forall i :: 0 <= i < |after| ==> after[i].Valid()
    ensures AllFrom(sources + before + after,
                    WholeAll(|sources|, before) + os + WholeAll(|sources| + |before|, after),
                    AllRows(before) + rows + AllRows(after))
  {
    var all := sources + before + after;
    hide From, WholeAll, AllRows;
    assert all[|sources|..|sources| + |before|] == before;
    assert all[|sources| + |before|..|sources| + |before| + |after|] == after;
    WholeAllFrom(all, |sources|, before);
    WholeAllFrom(all, |sources| + |before|, after);
    SourcesKept(sources, before + after, os, rows);
    assert sources + (before + after) == all;
    hide AllFrom;
    AllFromConcat(all, WholeAll(|sources|, before), AllRows(before), os, rows);
    AllFromConcat(all, WholeAll(|sources|, before) + os, AllRows(before) + rows,
                  WholeAll(|sources| + |before|, after), AllRows(after));
  }

  // ------------------------------------------------------------------ any sequence of steps

  lemma MatchingKept<E>(p: Data<E>, q: Data<E>, steps: seq<Step<E>>)
    requires SameColumns(p, q) && MatchingSteps(p, steps) && steps != []
    ensures MatchingSteps(q, steps[1..])
  {
    forall i | 0 <= i < |steps[1..]| && steps[1..][i].Join?
      ensures Matching(q, steps[1..][i].before) && Matching(q, steps[1..][i].after)
    {
      assert steps[1..][i] == steps[i + 1];
    }
  }

  lemma StepTracked<E>(p: Data<E>, sources: seq<Data<E>>, os: seq<Origin>, steps: seq<Step<E>>)
    requires steps != [] && Tracked(p, sources, os) && MatchingSteps(p, steps) && ApplyStep(p, steps[0]).Ok?
    ensures var q := ApplyStep(p, steps[0]).value;
            Tracked(q, StepSources(sources, steps[0]), StepOrigins(p, sources, os, steps[0])) && SameColumns(p, q)
  {
    hide Tracked, Matching, SameColumns;
    match steps[0]
    case Rowwise(op) => RowwiseTracked(p, sources, os, op);
    case Unfold(parts, splitKeys) => UnfoldTracked(p, sources, os, parts, splitKeys);
    case Join(before, after) => JoinTracked(p, sources, os, before, after);
  }

  lemma {:induction false} RunTracked<E>(p: Data<E>, sources: seq<Data<E>>, os: seq<Origin>, steps: seq<Step<E>>)
    requires Tracked(p, sources, os) && MatchingSteps(p, steps) && RunSteps(p, steps).Ok?
    ensures var (inputs, origins) := RunOrigins(p, sources, os, steps);
            Tracked(RunSteps(p, steps).value, inputs, origins)
    decreases |steps|
  {
    hide Tracked, MatchingSteps, ApplyStep, StepSources, StepOrigins, SameColumns;
    if steps != [] {
      StepTracked(p, sources, os, steps);
      var q := ApplyStep(p, steps[0]).value;
      MatchingKept(p, q, steps);
      RunTracked(q, StepSources(sources, steps[0]), StepOrigins(p, sources, os, steps[0]), steps[1..]);
    }
  }

  // Whatever is done to the data: selecting, masking, slicing, repeating, chunking, splitting, padding, reordering,
  // unfolding and joining other data before and after it, in any order and number. Position i of every column of the
  // result holds the entry of one row of one input, with the same parts taken of it; which row and parts the steps'
  // own choices tell.
  lemma EntriesStayTogether<E>(p: Data<E>, steps: seq<Step<E>>)
    requires p.Valid() && p.HasColumns() && Rect(p) && MatchingSteps(p, steps) && RunSteps(p, steps).Ok?
    ensures var q := RunSteps(p, steps).value;
            var (inputs, origins) := RunOrigins(p, [p], Whole(0, p.rows), steps);
            q.Valid() && |origins| == q.rows
            && forall i :: 0 <= i < q.rows ==> From(inputs, origins[i], RowAt(q, i))
  {
    WholeFrom([p], 0);
    assert Tracked(p, [p], Whole(0, p.rows));
    hide From, MatchingSteps, RunSteps, RunOrigins, RowAt;
    RunTracked(p, [p], Whole(0, p.rows), steps);
    var q := RunSteps(p, steps).value;
    var (inputs, origins) := RunOrigins(p, [p], Whole(0, p.rows), steps);
    assert |Rows(q)| == q.rows && forall i :: 0 <= i < q.rows ==> Rows(q)[i] == RowAt(q, i);
  }
}
