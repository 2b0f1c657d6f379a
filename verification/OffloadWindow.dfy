/** The load-balanced window map of the asynchronous offload handler: entry i is the forward commit at
    which group i's device buffers are freed, and the backward commit at which group i is reloaded. */
module OffloadWindow {
  import opened Arithmetic

  // Closed form of entry i for n offloaded groups out of l model groups.
  function Window(n: nat, l: nat, i: int): int
    requires n > 0
  {
    (l / n) * (i + 1) - 1 + Min(i + 1, l % n)
  }

  function WindowMap(n: nat, l: nat): map<int, int> {
    map i: int | 0 <= i < n :: Window(n, l, i)
  }

  // The dictionary-filling loop of the constructor, with its running constant.
  method FillWindowMap(n: nat, l: nat) returns (window: map<int, int>)
    ensures window == WindowMap(n, l)
  {
    window := map[];
    var constant := 0;
    for i := 0 to n
      invariant window == map k: int | 0 <= k < i :: Window(n, l, k)
      invariant n > 0 ==> constant == Min(i, l % n)
    {
      var entry := (l / n) * (i + 1) - 1;
      if i < l % n {
        entry := entry + i + 1;
        constant := i + 1;
      } else {
        entry := entry + constant;
      }
      window := window[i := entry];
    }
  }

  // Consecutive entries differ by l/n or l/n + 1, so the freeing commits are spread evenly.
  lemma WindowGap(n: nat, l: nat, i: nat)
    requires 0 < n <= l && i + 1 < n
    ensures Window(n, l, i + 1) - Window(n, l, i) == l / n + (if i + 1 < l % n then 1 else 0)
    ensures Window(n, l, i) < Window(n, l, i + 1)
  {
    var q := l / n;
    assert q * (i + 2) == q * (i + 1) + q;
    QuotientPositive(n, l);
  }

  lemma QuotientPositive(n: nat, l: nat)
    requires 0 < n <= l
    ensures l / n >= 1
  {
  }

  // The map ends at the last commit, and starts no earlier than the first.
  lemma WindowEnds(n: nat, l: nat)
    requires 0 < n <= l
    ensures Window(n, l, n - 1) == l - 1
    ensures Window(n, l, 0) >= 0
  {
    assert (l / n) * n + l % n == l;
    QuotientPositive(n, l);
  }

  lemma {:induction false} WindowMonotone(n: nat, l: nat, i: nat, j: nat)
    requires 0 < n <= l && i <= j < n
    ensures Window(n, l, j) - Window(n, l, i) >= j - i
    decreases j - i
  {
    if i < j {
      WindowMonotone(n, l, i, j - 1);
      WindowGap(n, l, j - 1);
    }
  }

  // Group i + 1 is completely pushed when its offload is issued, exactly when some group is not offloaded.
  lemma WindowAhead(n: nat, l: nat, i: nat)
    requires 0 < n <= l && i < n
    ensures Window(n, l, i) >= i
    ensures n < l ==> Window(n, l, i) >= i + 1
    ensures n == l ==> Window(n, l, i) == i
    ensures Window(n, l, i) - i <= l - n
  {
    WindowEnds(n, l);
    WindowMonotone(n, l, 0, i);
    WindowMonotone(n, l, i, n - 1);
    if n < l {
      if l / n == 1 {
        assert l == n + l % n;
        assert Window(n, l, i) == i + Min(i + 1, l % n);
      } else {
        assert (l / n) * 1 - 1 >= 1;
      }
    } else {
      assert l / n == 1;
    }
  }

  // How many windows close before forward commit g: the value of the offloaded-group counter.
  function Closed(n: nat, l: nat, g: nat): (c: nat)
    requires n > 0
    ensures c <= n
  {
    if g == 0 then 0
    else
      var c := Closed(n, l, g - 1);
      if c < n && Window(n, l, c) == g - 1 then c + 1 else c
  }

  // Closed(g) counts exactly the entries below g.
  lemma {:induction false} ClosedCounts(n: nat, l: nat, g: nat)
    requires 0 < n <= l
    ensures var c := Closed(n, l, g);
            (c < n ==> Window(n, l, c) >= g) && (c > 0 ==> Window(n, l, c - 1) < g)
  {
    if g == 0 {
      WindowEnds(n, l);
    } else {
      ClosedCounts(n, l, g - 1);
      var c := Closed(n, l, g - 1);
      if c < n && Window(n, l, c) == g - 1 && c + 1 < n {
        WindowGap(n, l, c);
      }
    }
  }

  // L commits drive the counter from 0 to N, and not one commit earlier.
  lemma ClosedAtEnd(n: nat, l: nat, g: nat)
    requires 0 < n <= l && g <= l
    ensures Closed(n, l, g) == n <==> g == l
  {
    ClosedCounts(n, l, g);
    WindowEnds(n, l);
    var c := Closed(n, l, g);
    if g == l && c < n {
      WindowMonotone(n, l, c, n - 1);
    }
  }

  // The window of groups that are on the device around group g.
  lemma ClosedBehind(n: nat, l: nat, g: nat)
    requires 0 < n <= l && g <= l
    ensures n < l && g > 0 ==> Closed(n, l, g) <= g - 1
    ensures n == l ==> Closed(n, l, g) == g
    ensures g < l ==> g - Closed(n, l, g) <= l - n
  {
    ClosedCounts(n, l, g);
    var c := Closed(n, l, g);
    if c > 0 {
      WindowAhead(n, l, c - 1);
    }
    if c < n {
      WindowAhead(n, l, c);
    } else {
      ClosedAtEnd(n, l, g);
    }
  }

  // Backwards, the same windows open in reverse order.
  lemma ClosedReverse(n: nat, l: nat, g: nat)
    requires 0 < n <= l && g < l
    ensures var c := Closed(n, l, g + 1);
            if c == 0 then Closed(n, l, g) == 0 && Window(n, l, 0) != g
            else Closed(n, l, g) == if Window(n, l, c - 1) == g then c - 1 else c
    ensures g + 1 == l ==> Window(n, l, n - 1) == g
  {
    ClosedCounts(n, l, g + 1);
    ClosedCounts(n, l, g);
    WindowEnds(n, l);
  }
}
