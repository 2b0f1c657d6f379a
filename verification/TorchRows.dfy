/** The row operations of torch that cut a tensor along its first dimension, on sequences of rows. */
module TorchRows {
  import opened Arithmetic

  function Pieces<T>(s: seq<T>, size: nat): (r: seq<seq<T>>)
    requires size > 0
  {
    if s == [] then []
    else if |s| <= size then [s]
    else [s[..size]] + Pieces(s[size..], size)
  }

  function Empties<T>(n: nat): seq<seq<T>> {
    if n == 0 then [] else [[]] + Empties(n - 1)
  }

  // tensor.chunk(n): pieces of ceil(rows / n) rows; an empty tensor gives n empty pieces.
  function Chunk<T>(s: seq<T>, n: nat): seq<seq<T>>
    requires n > 0
  {
    if s == [] then Empties(n)
    else
      CeilPositive(|s|, n);
      Pieces(s, Div(|s| + n - 1, n))
  }

  lemma CeilPositive(rows: nat, n: nat)
    requires rows > 0 && n > 0
    ensures Div(rows + n - 1, n) > 0
  {
    assert rows + n - 1 >= n;
  }

  function Concat<T>(parts: seq<seq<T>>): seq<T> {
    if parts == [] then [] else parts[0] + Concat(parts[1..])
  }

  lemma {:induction false} ConcatAppend<T>(a: seq<seq<T>>, b: seq<seq<T>>)
    ensures Concat(a + b) == Concat(a) + Concat(b)
  {
    if a == [] {
      assert a + b == b;
    } else {
      assert (a + b)[0] == a[0] && (a + b)[1..] == a[1..] + b;
      ConcatAppend(a[1..], b);
    }
  }

  // Pieces lose nothing.
  lemma {:induction false} PiecesConcat<T>(s: seq<T>, size: nat)
    requires size > 0
    ensures Concat(Pieces(s, size)) == s
    decreases |s|
  {
    if s == [] {
    } else if |s| <= size {
      assert Concat([s]) == s + Concat([]);
    } else {
      PiecesConcat(s[size..], size);
      assert ([s[..size]] + Pieces(s[size..], size))[1..] == Pieces(s[size..], size);
    }
  }

  lemma {:induction false} PiecesEven<T>(s: seq<T>, size: nat, n: nat)
    requires size > 0 && |s| == n * size
    ensures |Pieces(s, size)| == n && forall i :: 0 <= i < n ==> |Pieces(s, size)[i]| == size
    decreases n
  {
    if n > 0 {
      assert n * size == size + (n - 1) * size;
      if n > 1 {
        assert (n - 1) * size >= size;
        PiecesEven(s[size..], size, n - 1);
      }
    }
  }

  lemma {:induction false} PiecesAppend<T>(s: seq<T>, t: seq<T>, size: nat, n: nat)
    requires size > 0 && |s| == n * size
    ensures Pieces(s + t, size) == Pieces(s, size) + Pieces(t, size)
    decreases n
  {
    if n == 0 {
      assert s + t == t;
    } else {
      assert n * size == size + (n - 1) * size;
      if s[size..] == [] && t == [] {
        assert s + t == s;
      } else {
        assert (s + t)[..size] == s[..size] && (s + t)[size..] == s[size..] + t;
        PiecesAppend(s[size..], t, size, n - 1);
        if s[size..] == [] {
          assert s[..size] == s && s[size..] + t == t;
        }
      }
    }
  }

  lemma ChunkEven<T>(t: seq<T>, n: nat, size: nat)
    requires n > 0 && size > 0 && |t| == n * size
    ensures Chunk(t, n) == Pieces(t, size)
  {
    ScaleMonotone(1, n, size);
    Quotient(n * size + n - 1, n, size, n - 1);
  }

  lemma {:induction false} ConcatLength<T>(parts: seq<seq<T>>, n: nat)
    requires forall r :: 0 <= r < |parts| ==> |parts[r]| == n
    ensures |Concat(parts)| == |parts| * n
  {
    if parts != [] {
      ConcatLength(parts[1..], n);
      Peel(|parts|, n);
    }
  }
}
