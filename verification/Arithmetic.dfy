/** Facts about products, quotients and remainders of natural numbers that the layouts rest on. */
module Arithmetic {

  function Min(a: int, b: int): int {
    if a <= b then a else b
  }

  function Sum(xs: seq<int>): (r: int)
    ensures (forall i :: 0 <= i < |xs| ==> xs[i] >= 0) ==> r >= 0
  {
    if xs == [] then 0 else xs[0] + Sum(xs[1..])
  }

  function Div(x: nat, y: nat): nat
    requires y > 0
  {
    x / y
  }

  lemma ScaleMonotone(a: int, b: int, c: nat)
    requires a <= b
    ensures a * c <= b * c
  {
  }

  lemma Quotient(x: nat, a: nat, q: nat, r: nat)
    requires a > 0 && x == q * a + r && r < a
    ensures x / a == q && x % a == r
  {
    var p := x / a;
    assert x == p * a + x % a;
    if p < q {
      ScaleMonotone(p + 1, q, a);
    } else if q < p {
      ScaleMonotone(q + 1, p, a);
    }
  }

  lemma Cancel(a: nat, b: nat)
    requires a > 0
    ensures (b * a) / a == b && (b * a) % a == 0
  {
    Quotient(b * a, a, b, 0);
  }

  lemma Peel(n: nat, s: nat)
    requires n > 0
    ensures n * s == s + (n - 1) * s
  {
  }

  lemma DivisionCell(i: nat, size: nat, r: nat)
    requires size > 0
    ensures r * size <= i < r * size + size <==> r == i / size
  {
    var q := i / size;
    assert i == q * size + i % size;
    if r < q {
      ScaleMonotone(r + 1, q, size);
    } else if r > q {
      ScaleMonotone(q + 1, r, size);
    }
  }

  lemma ProductPositive(n: nat, k: nat)
    requires n * k > 0
    ensures n > 0 && k > 0
  {
  }

  lemma DivisionShift(i: nat, k: nat)
    requires k > 0
    ensures i < k ==> i / k == 0 && i % k == i
    ensures i >= k ==> i / k == (i - k) / k + 1 && i % k == (i - k) % k
  {
    if i >= k {
      Quotient(i, k, (i - k) / k + 1, (i - k) % k);
    } else {
      Quotient(i, k, 0, i);
    }
  }

  // Position i of n cells of k entries lies in one of the n cells.
  lemma CellInRange(n: nat, k: nat, i: nat)
    requires i < n * k
    ensures k > 0 && 0 <= i / k < n
  {
    ProductPositive(n, k);
    DivisionCell(i, k, i / k);
    if i / k >= n {
      ScaleMonotone(n, i / k, k);
    }
  }
}
