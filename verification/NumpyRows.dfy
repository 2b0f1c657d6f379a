/** The row operations of numpy that cut an array along its first dimension, on sequences of rows. */
module NumpyRows {
  import opened Arithmetic

  // What np.cumsum leaves before entry k.
  function Prefix(sizes: seq<nat>, k: nat): nat
    requires k <= |sizes|
  {
    if k == 0 then 0 else Prefix(sizes, k - 1) + sizes[k - 1]
  }

  lemma {:induction false} PrefixGrows(sizes: seq<nat>, j: nat, k: nat)
    requires j < k <= |sizes|
    ensures Prefix(sizes, j) + sizes[j] <= Prefix(sizes, k)
    decreases k - j
  {
    if j + 1 < k {
      PrefixGrows(sizes, j, k - 1);
    }
  }

  // np.array_split: part i starts here; the first n % parts parts are one longer.
  function PartStart(n: nat, parts: nat, i: nat): nat
    requires parts > 0
  {
    i * (n / parts) + Min(i, n % parts)
  }

  lemma PartStep(n: nat, parts: nat, i: nat)
    requires parts > 0 && i < parts
    ensures PartStart(n, parts, i + 1) == PartStart(n, parts, i) + n / parts + (if i < n % parts then 1 else 0)
    ensures PartStart(n, parts, 0) == 0 && PartStart(n, parts, parts) == n
  {
    assert (i + 1) * (n / parts) == i * (n / parts) + n / parts;
    assert parts * (n / parts) + n % parts == n;
  }

  lemma {:induction false} PartsOrdered(n: nat, parts: nat, i: nat, j: nat)
    requires parts > 0 && i <= j <= parts
    ensures PartStart(n, parts, i) <= PartStart(n, parts, j) <= n
    decreases parts - i
  {
    PartStep(n, parts, 0);
    if i < parts {
      PartStep(n, parts, i);
      PartsOrdered(n, parts, i + 1, if i < j then j else parts);
    }
  }

  // The part that holds position p.
  function PartOf(n: nat, parts: nat, p: nat): (i: nat)
    requires parts > 0 && p < n
    ensures i < parts && PartStart(n, parts, i) <= p < PartStart(n, parts, i + 1)
  {
    PartStep(n, parts, 0);
    PartBefore(n, parts, p, parts)
  }

  function PartBefore(n: nat, parts: nat, p: nat, i: nat): (r: nat)
    requires parts > 0 && i <= parts && PartStart(n, parts, 0) <= p < PartStart(n, parts, i)
    ensures r < parts && PartStart(n, parts, r) <= p < PartStart(n, parts, r + 1)
  {
    if PartStart(n, parts, i - 1) <= p then i - 1 else PartBefore(n, parts, p, i - 1)
  }

  lemma PartOfUnique(n: nat, parts: nat, p: nat, i: nat)
    requires parts > 0 && p < n && i < parts
    requires PartStart(n, parts, i) <= p < PartStart(n, parts, i + 1)
    ensures i == PartOf(n, parts, p)
  {
    var r := PartOf(n, parts, p);
    if i < r {
      PartsOrdered(n, parts, i + 1, r);
    } else if r < i {
      PartsOrdered(n, parts, r + 1, i);
    }
  }

  // np.cumsum
  function Cumulative(sizes: seq<nat>): seq<nat> {
    seq(|sizes|, i requires 0 <= i < |sizes| => Prefix(sizes, i + 1))
  }

  // col[lo:hi]
  function CutOut<T>(col: seq<T>, lo: nat, hi: nat): seq<T> {
    var end := if hi <= |col| then hi else |col|;
    if lo <= end then col[lo..end] else []
  }

  // np.array_split at given cuts: the last piece goes to the end.
  function ArraySplitAt<T>(col: seq<T>, cuts: seq<nat>, from: nat): seq<seq<T>> {
    if cuts == [] then [CutOut(col, from, |col|)]
    else [CutOut(col, from, cuts[0])] + ArraySplitAt(col, cuts[1..], cuts[0])
  }

  // np.array_split into a number of parts.
  function ArraySplit<T>(col: seq<T>, parts: nat): seq<seq<T>>
    requires parts > 0
  {
    seq(parts, i requires 0 <= i < parts => CutOut(col, PartStart(|col|, parts, i), PartStart(|col|, parts, i + 1)))
  }

  lemma {:induction false} SplitAtPiece<T>(col: seq<T>, cuts: seq<nat>, from: nat, i: nat)
    requires i <= |cuts|
    ensures |ArraySplitAt(col, cuts, from)| == |cuts| + 1
    ensures ArraySplitAt(col, cuts, from)[i] ==
            CutOut(col, if i == 0 then from else cuts[i - 1], if i == |cuts| then |col| else cuts[i])
  {
    if cuts != [] {
      SplitAtPiece(col, cuts[1..], cuts[0], if i == 0 then 0 else i - 1);
    }
  }

  // Splitting behind the first sizes but the last: piece i lies between the sums before and after size i.
  lemma SplitAtSizes<T>(col: seq<T>, sizes: seq<nat>, i: nat)
    requires i < |sizes|
    ensures var pieces := ArraySplitAt(col, Cumulative(sizes)[..|sizes| - 1], 0);
            |pieces| == |sizes|
            && pieces[i] == CutOut(col, Prefix(sizes, i), if i + 1 == |sizes| then |col| else Prefix(sizes, i + 1))
  {
    SplitAtPiece(col, Cumulative(sizes)[..|sizes| - 1], 0, i);
    assert Prefix(sizes, 0) == 0;
  }
}
