/** Greedy alignment of two tokenisations of the same text by a two-pointer walk over the accumulated texts. */
module TokenAlignment {
  import opened Wrappers
  import opened Arithmetic

  const EOS_TOKEN_MARKER := "<|eos|>"

  // The word-start markers of SentencePiece and byte-level BPE.
  predicate IsMarker(c: char) {
    c == '\U{2581}' || c == '\U{0120}'
  }

  // Drop every marker.
  function Normalize(token: string): (r: string)
    ensures forall c :: c in r <==> c in token && !IsMarker(c)
  {
    if token == [] then [] else (if IsMarker(token[0]) then [] else [token[0]]) + Normalize(token[1..])
  }

  lemma {:induction false} NormalizeTwice(token: string)
    ensures Normalize(Normalize(token)) == Normalize(token)
  {
    if token != [] {
      NormalizeTwice(token[1..]);
      if IsMarker(token[0]) {
        assert Normalize(token) == Normalize(token[1..]);
      } else {
        assert Normalize(token)[1..] == Normalize(token[1..]);
      }
    }
  }

  // Each character is decided on its own, and all that is kept keeps its place.
  lemma {:induction false} NormalizeConcat(a: string, b: string)
    ensures Normalize(a + b) == Normalize(a) + Normalize(b)
  {
    if a == [] {
      assert a + b == b;
    } else {
      assert (a + b)[0] == a[0] && (a + b)[1..] == a[1..] + b;
      NormalizeConcat(a[1..], b);
    }
  }

  lemma NormalizeOne(c: char)
    ensures Normalize([c]) == if c == '\U{2581}' || c == '\U{0120}' then [] else [c]
  {
    assert [c][1..] == [] && Normalize([c][1..]) == [];
  }

  function Canonical(token: string, eos: Option<string>): string {
    if eos.Some? && token == eos.value then EOS_TOKEN_MARKER else Normalize(token)
  }

  function CanonicalAll(tokens: seq<string>, eos: Option<string>): seq<string> {
    seq(|tokens|, i requires 0 <= i < |tokens| => Canonical(tokens[i], eos))
  }

  // ------------------------------------------------------------------ what an alignment is

  // The text before token i.
  function Text(tokens: seq<string>, i: nat): string
    requires i <= |tokens|
  {
    if i == 0 then "" else Text(tokens, i - 1) + tokens[i - 1]
  }

  // Two occurrences of one token after the same text.
  predicate Match(tea: seq<string>, stu: seq<string>, i: nat, j: nat) {
    i < |tea| && j < |stu| && Text(tea, i) == Text(stu, j) && tea[i] == stu[j]
  }

  predicate NonEmpty(tokens: seq<string>) {
    forall i :: 0 <= i < |tokens| ==> tokens[i] != ""
  }

  type Pairs = seq<(nat, nat)>

  predicate Increasing(pairs: Pairs) {
    forall a, b :: 0 <= a < b < |pairs| ==> pairs[a].0 < pairs[b].0 && pairs[a].1 < pairs[b].1
  }

  // ------------------------------------------------------------------ the walk

  // The walk from (i, j) with the accumulated texts of both sides.
  function Walk(tea: seq<string>, stu: seq<string>, i: nat, j: nat, ht: string, hs: string): Pairs
    requires i <= |tea| && j <= |stu|
    decreases |tea| - i + |stu| - j
  {
    if i == |tea| || j == |stu| then []
    else if ht == hs && tea[i] == stu[j] then [(i, j)] + Walk(tea, stu, i + 1, j + 1, ht + tea[i], hs + tea[i])
    else if |ht| > |hs| then Walk(tea, stu, i, j + 1, ht, hs + stu[j])
    else if |ht| < |hs| then Walk(tea, stu, i + 1, j, ht + tea[i], hs)
    else Walk(tea, stu, i + 1, j + 1, ht + tea[i], hs + stu[j])
  }

  function Diagonal(n: nat): seq<nat> {
    seq(n, k requires 0 <= k < n => k)
  }

  function Firsts(pairs: Pairs): seq<nat> {
    seq(|pairs|, k requires 0 <= k < |pairs| => pairs[k].0)
  }

  function Seconds(pairs: Pairs): seq<nat> {
    seq(|pairs|, k requires 0 <= k < |pairs| => pairs[k].1)
  }

  method AlignTokenSequences(teacherTokens: seq<string>, studentTokens: seq<string>,
                             teacherEos: Option<string>, studentEos: Option<string>)
    returns (tAlign: seq<nat>, sAlign: seq<nat>)
    ensures var tea, stu := CanonicalAll(teacherTokens, teacherEos), CanonicalAll(studentTokens, studentEos);
            var pairs := Walk(tea, stu, 0, 0, "", "");
            tAlign == Firsts(pairs) && sAlign == Seconds(pairs)
  {
    var tea, stu := CanonicalAll(teacherTokens, teacherEos), CanonicalAll(studentTokens, studentEos);
    if tea == stu {
      tAlign, sAlign := Diagonal(|tea|), Diagonal(|tea|);
      DiagonalIsWalk(tea);
      return;
    }
    hide CanonicalAll, Ahead, Firsts, Seconds, Walk;
    var i, j := 0, 0;
    tAlign, sAlign := [], [];
    var historyTea, historyStu := "", "";
    ghost var all := Walk(tea, stu, 0, 0, "", "");
    AheadAll(all);
    while i < |tea| && j < |stu|
      invariant i <= |tea| && j <= |stu|
      invariant Ahead(all, tAlign, sAlign, Walk(tea, stu, i, j, historyTea, historyStu))
      decreases |tea| - i + |stu| - j
    {
      WalkUnfolds(tea, stu, i, j, historyTea, historyStu);
      if historyTea == historyStu && tea[i] == stu[j] {
        var common := tea[i];
        AheadMatch(all, tAlign, sAlign, i, j, Walk(tea, stu, i + 1, j + 1, historyTea + common, historyTea + common));
        historyTea := historyTea + common;
        historyStu := historyStu + common;
        tAlign := tAlign + [i];
        sAlign := sAlign + [j];
        i := i + 1;
        j := j + 1;
      } else if |historyTea| > |historyStu| {
        historyStu := historyStu + stu[j];
        j := j + 1;
      } else if |historyTea| < |historyStu| {
        historyTea := historyTea + tea[i];
        i := i + 1;
      } else {
        historyTea := historyTea + tea[i];
        historyStu := historyStu + stu[j];
        i := i + 1;
        j := j + 1;
      }
    }
    WalkUnfolds(tea, stu, i, j, historyTea, historyStu);
    AheadNothing(all, tAlign, sAlign);
  }

  lemma WalkUnfolds(tea: seq<string>, stu: seq<string>, i: nat, j: nat, ht: string, hs: string)
    requires i <= |tea| && j <= |stu|
    ensures var pairs := Walk(tea, stu, i, j, ht, hs);
            if i == |tea| || j == |stu| then pairs == []
            else if ht == hs && tea[i] == stu[j] then
              pairs == [(i, j)] + Walk(tea, stu, i + 1, j + 1, ht + tea[i], ht + tea[i])
            else if |ht| > |hs| then pairs == Walk(tea, stu, i, j + 1, ht, hs + stu[j])
            else if |ht| < |hs| then pairs == Walk(tea, stu, i + 1, j, ht + tea[i], hs)
            else pairs == Walk(tea, stu, i + 1, j + 1, ht + tea[i], hs + stu[j])
  {
  }

  lemma DiagonalIsWalk(tokens: seq<string>)
    ensures var pairs := Walk(tokens, tokens, 0, 0, "", "");
            Diagonal(|tokens|) == Firsts(pairs) && Diagonal(|tokens|) == Seconds(pairs)
  {
    FastPath(tokens, 0, "");
    hide Walk;
  }

  // The pairs (a[k], b[k]), followed by the rest of the walk, are all pairs.
  ghost predicate Ahead(all: Pairs, a: seq<nat>, b: seq<nat>, rest: Pairs) {
    |a| == |b| && all == seq(|a|, k requires 0 <= k < |a| => (a[k], b[k])) + rest
  }

  lemma AheadAll(all: Pairs)
    ensures Ahead(all, [], [], all)
  {
  }

  lemma AheadMatch(all: Pairs, a: seq<nat>, b: seq<nat>, i: nat, j: nat, rest: Pairs)
    requires Ahead(all, a, b, [(i, j)] + rest)
    ensures Ahead(all, a + [i], b + [j], rest)
  {
  }

  lemma AheadNothing(all: Pairs, a: seq<nat>, b: seq<nat>)
    requires Ahead(all, a, b, [])
    ensures a == Firsts(all) && b == Seconds(all)
  {
  }

  // ------------------------------------------------------------------ the fast path

  // On identical sequences the walk matches every position, even with empty tokens.
  lemma {:induction false} FastPath(tokens: seq<string>, i: nat, h: string)
    requires i <= |tokens|
    ensures var pairs := Walk(tokens, tokens, i, i, h, h);
            |pairs| == |tokens| - i && forall k :: 0 <= k < |pairs| ==> pairs[k] == (i + k, i + k)
    decreases |tokens| - i
  {
    if i < |tokens| {
      FastPath(tokens, i + 1, h + tokens[i]);
      var rest := Walk(tokens, tokens, i + 1, i + 1, h + tokens[i], h + tokens[i]);
      assert Walk(tokens, tokens, i, i, h, h) == [(i, i)] + rest;
      hide Walk;
    }
  }

  // ------------------------------------------------------------------ soundness and completeness

  // Common occurrences from (i, j) on, in order.
  predicate MatchesFrom(tea: seq<string>, stu: seq<string>, i: nat, j: nat, pairs: Pairs) {
    Increasing(pairs)
    && forall k :: 0 <= k < |pairs| ==> pairs[k].0 >= i && pairs[k].1 >= j && Match(tea, stu, pairs[k].0, pairs[k].1)
  }

  // Whatever the walk returns is a common occurrence.
  lemma {:induction false} WalkSound(tea: seq<string>, stu: seq<string>, i: nat, j: nat)
    requires i <= |tea| && j <= |stu|
    ensures MatchesFrom(tea, stu, i, j, Walk(tea, stu, i, j, Text(tea, i), Text(stu, j)))
    decreases |tea| - i + |stu| - j
  {
    hide MatchesFrom;
    MatchesNothing(tea, stu, i, j);
    if i == |tea| || j == |stu| {
    } else if Text(tea, i) == Text(stu, j) && tea[i] == stu[j] {
      WalkSound(tea, stu, i + 1, j + 1);
      MatchFirst(tea, stu, i, j, Walk(tea, stu, i + 1, j + 1, Text(tea, i + 1), Text(stu, j + 1)));
    } else if |Text(tea, i)| > |Text(stu, j)| {
      WalkSound(tea, stu, i, j + 1);
      MatchesLater(tea, stu, i, j, i, j + 1, Walk(tea, stu, i, j + 1, Text(tea, i), Text(stu, j + 1)));
    } else if |Text(tea, i)| < |Text(stu, j)| {
      WalkSound(tea, stu, i + 1, j);
      MatchesLater(tea, stu, i, j, i + 1, j, Walk(tea, stu, i + 1, j, Text(tea, i + 1), Text(stu, j)));
    } else {
      WalkSound(tea, stu, i + 1, j + 1);
      MatchesLater(tea, stu, i, j, i + 1, j + 1, Walk(tea, stu, i + 1, j + 1, Text(tea, i + 1), Text(stu, j + 1)));
    }
  }

  lemma MatchesNothing(tea: seq<string>, stu: seq<string>, i: nat, j: nat)
    ensures MatchesFrom(tea, stu, i, j, [])
  {
  }

  lemma MatchFirst(tea: seq<string>, stu: seq<string>, i: nat, j: nat, rest: Pairs)
    requires MatchesFrom(tea, stu, i + 1, j + 1, rest) && Match(tea, stu, i, j)
    ensures MatchesFrom(tea, stu, i, j, [(i, j)] + rest)
  {
  }

  lemma MatchesLater(tea: seq<string>, stu: seq<string>, i: nat, j: nat, i': nat, j': nat, pairs: Pairs)
    requires MatchesFrom(tea, stu, i', j', pairs) && i <= i' && j <= j'
    ensures MatchesFrom(tea, stu, i, j, pairs)
  {
  }

  lemma {:induction false} TextGrows(tokens: seq<string>, i: nat, k: nat)
    requires NonEmpty(tokens) && i < k <= |tokens|
    ensures |Text(tokens, i)| < |Text(tokens, k)|
    decreases k - i
  {
    if i + 1 < k {
      TextGrows(tokens, i, k - 1);
    }
  }

  // ------------------------------------------------------------------ empty tokens

  // No shorter prefix has the same text.
  predicate First(tokens: seq<string>, i: nat) {
    i <= |tokens| && (i == 0 || tokens[i - 1] != "")
  }

  // How many empty tokens follow position i.
  function EmptyRun(tokens: seq<string>, i: nat): (r: nat)
    requires i <= |tokens|
    ensures i + r <= |tokens|
    ensures forall k :: i <= k < i + r ==> tokens[k] == ""
    ensures i + r < |tokens| ==> tokens[i + r] != ""
    decreases |tokens| - i
  {
    if i == |tokens| || tokens[i] != "" then 0 else 1 + EmptyRun(tokens, i + 1)
  }

  // Both sides reach the same text here, for the first time.
  predicate Meeting(tea: seq<string>, stu: seq<string>, i: nat, j: nat) {
    First(tea, i) && First(stu, j) && Text(tea, i) == Text(stu, j)
  }

  // Of the e and f empty tokens that follow a common text at most one on each side can be matched with all of the
  // other side's, and the walk gets past different numbers of them only if the next tokens differ.
  predicate NothingLostAt(tea: seq<string>, stu: seq<string>, i: nat, j: nat)
    requires i <= |tea| && j <= |stu|
  {
    var e, f := EmptyRun(tea, i), EmptyRun(stu, j);
    && e * f <= Min(e, f)
    && (e != f && i + e < |tea| && j + f < |stu| ==> tea[i + e] != stu[j + f])
  }

  ghost predicate NothingLost(tea: seq<string>, stu: seq<string>) {
    forall i: nat, j: nat :: Meeting(tea, stu, i, j) ==> NothingLostAt(tea, stu, i, j)
  }

  lemma {:induction false} TextPrefix(tokens: seq<string>, i: nat, k: nat)
    requires i <= k <= |tokens|
    ensures |Text(tokens, i)| <= |Text(tokens, k)| && Text(tokens, k)[..|Text(tokens, i)|] == Text(tokens, i)
    decreases k - i
  {
    if i < k {
      TextPrefix(tokens, i, k - 1);
    }
  }

  // Two positions with the same text have only empty tokens between them.
  lemma {:induction false} SameText(tokens: seq<string>, i: nat, k: nat)
    requires i <= k <= |tokens|
    ensures |Text(tokens, i)| == |Text(tokens, k)| <==> k <= i + EmptyRun(tokens, i)
    ensures |Text(tokens, i)| == |Text(tokens, k)| ==> Text(tokens, i) == Text(tokens, k)
    decreases k - i
  {
    if i < k {
      TextPrefix(tokens, i, i + 1);
      TextPrefix(tokens, i + 1, k);
      SameText(tokens, i + 1, k);
    }
  }

  // Where the walk can be without having lost a match: the side that is ahead has just got there, and so have
  // both where they meet, or else they have just matched the only empty token of each.
  predicate OnTrack(tea: seq<string>, stu: seq<string>, i: nat, j: nat)
    requires i <= |tea| && j <= |stu|
  {
    && (|Text(tea, i)| > |Text(stu, j)| ==> First(tea, i))
    && (|Text(tea, i)| < |Text(stu, j)| ==> First(stu, j))
    && (Text(tea, i) == Text(stu, j) ==>
          (First(tea, i) && First(stu, j)) || (EmptyRun(tea, i) == 0 && EmptyRun(stu, j) == 0))
  }

  // A match further on is not at a position where only one of the two sides moves on.
  lemma BothMove(tea: seq<string>, stu: seq<string>, i: nat, j: nat, a: nat, b: nat)
    requires NothingLost(tea, stu) && i <= |tea| && j <= |stu| && OnTrack(tea, stu, i, j)
    requires i <= a && j <= b && Match(tea, stu, a, b) && (a, b) != (i, j)
    requires |Text(tea, i)| == |Text(stu, j)|
    ensures Text(tea, i) == Text(stu, j) && i < a && j < b
  {
    TextPrefix(tea, i, a);
    TextPrefix(stu, j, b);
    SameText(tea, i, a);
    SameText(stu, j, b);
    hide Text, OnTrack;
    assert OnTrack(tea, stu, i, j);
    if i == a || j == b {
      MeetingSettles(tea, stu, i, j, a, b);
    }
  }

  // A match at a meeting whose sides the walk does not leave together would break the condition.
  lemma MeetingSettles(tea: seq<string>, stu: seq<string>, i: nat, j: nat, a: nat, b: nat)
    requires NothingLost(tea, stu) && i <= |tea| && j <= |stu| && OnTrack(tea, stu, i, j)
    requires Text(tea, i) == Text(stu, j)
    requires i <= a && j <= b && Match(tea, stu, a, b) && (i == a || j == b)
    requires a <= i + EmptyRun(tea, i) && b <= j + EmptyRun(stu, j)
    ensures (a, b) == (i, j)
  {
    if EmptyRun(tea, i) + EmptyRun(stu, j) > 0 {
      MeetingRuns(tea, stu, i, j);
    }
    hide NothingLost, OnTrack, Text, First;
    if i == a {
      OneSide(tea, stu, i, j, b);
    } else {
      OneSide(stu, tea, j, i, a);
    }
  }

  // Where the other side has empty tokens, its next equal token comes right away.
  lemma OneSide(x: seq<string>, y: seq<string>, i: nat, j: nat, b: nat)
    requires i < |x| && j <= b < |y| && x[i] == y[b] && b <= j + EmptyRun(y, j)
    requires var e, f := EmptyRun(x, i), EmptyRun(y, j);
             && (e == 0 || f == 0 || (e == 1 && f == 1))
             && (e != f && i + e < |x| && j + f < |y| ==> x[i + e] != y[j + f])
    ensures b == j
  {
    var e, f := EmptyRun(x, i), EmptyRun(y, j);
    if e == 0 {
      assert y[b] != "" && b == j + f;
    } else {
      assert y[b] == "" && b < j + f;
    }
  }

  lemma MeetingRuns(tea: seq<string>, stu: seq<string>, i: nat, j: nat)
    requires NothingLost(tea, stu) && Meeting(tea, stu, i, j)
    ensures var e, f := EmptyRun(tea, i), EmptyRun(stu, j);
            && (e == 0 || f == 0 || (e == 1 && f == 1))
            && (e != f && i + e < |tea| && j + f < |stu| ==> tea[i + e] != stu[j + f])
  {
    assert NothingLostAt(tea, stu, i, j);
    AtMostOne(EmptyRun(tea, i), EmptyRun(stu, j));
  }

  lemma AtMostOne(e: nat, f: nat)
    ensures e * f <= Min(e, f) <==> e == 0 || f == 0 || (e == 1 && f == 1)
  {
    if e > 0 && f > 0 {
      if e > 1 {
        assert e * f >= f + f;
      }
      if f > 1 {
        assert e * f >= e + e;
      }
    }
  }

  // Under the condition no match ahead of the walk is lost.
  lemma {:induction false} WalkComplete(tea: seq<string>, stu: seq<string>, i: nat, j: nat, a: nat, b: nat)
    requires NothingLost(tea, stu) && i <= |tea| && j <= |stu| && OnTrack(tea, stu, i, j)
    requires i <= a && j <= b && Match(tea, stu, a, b)
    ensures (a, b) in Walk(tea, stu, i, j, Text(tea, i), Text(stu, j))
    decreases |tea| - i + |stu| - j
  {
    if (a, b) != (i, j) {
      TextPrefix(tea, i, a);
      TextPrefix(stu, j, b);
      if |Text(tea, i)| > |Text(stu, j)| {
        StudentMoves(tea, stu, i, j);
        WalkComplete(tea, stu, i, j + 1, a, b);
      } else if |Text(tea, i)| < |Text(stu, j)| {
        TeacherMoves(tea, stu, i, j);
        WalkComplete(tea, stu, i + 1, j, a, b);
      } else {
        BothMove(tea, stu, i, j, a, b);
        BothMoved(tea, stu, i, j);
        WalkComplete(tea, stu, i + 1, j + 1, a, b);
      }
    }
  }

  lemma StudentMoves(tea: seq<string>, stu: seq<string>, i: nat, j: nat)
    requires i <= |tea| && j < |stu| && OnTrack(tea, stu, i, j) && |Text(tea, i)| > |Text(stu, j)|
    ensures OnTrack(tea, stu, i, j + 1)
  {
    assert Text(stu, j + 1) == Text(stu, j) + stu[j];
  }

  lemma TeacherMoves(tea: seq<string>, stu: seq<string>, i: nat, j: nat)
    requires i < |tea| && j <= |stu| && OnTrack(tea, stu, i, j) && |Text(tea, i)| < |Text(stu, j)|
    ensures OnTrack(tea, stu, i + 1, j)
  {
    assert Text(tea, i + 1) == Text(tea, i) + tea[i];
  }

  lemma BothMoved(tea: seq<string>, stu: seq<string>, i: nat, j: nat)
    requires NothingLost(tea, stu) && i < |tea| && j < |stu| && OnTrack(tea, stu, i, j)
    requires Text(tea, i) == Text(stu, j)
    ensures OnTrack(tea, stu, i + 1, j + 1)
  {
    assert Text(tea, i + 1) == Text(tea, i) + tea[i] && Text(stu, j + 1) == Text(stu, j) + stu[j];
    if tea[i] == "" && stu[j] == "" {
      MeetingRuns(tea, stu, i, j);
    }
  }

  // The walk cannot reach (i, j + f) when the student has empty tokens where the teacher has none.
  lemma {:induction false} StepsPast(tea: seq<string>, stu: seq<string>, i': nat, j': nat, i: nat, j: nat, b: nat)
    requires Meeting(tea, stu, i, j) && i' <= i < |tea| && j' <= j < b && j < |stu| && tea[i] != stu[j]
    ensures (i, b) !in Walk(tea, stu, i', j', Text(tea, i'), Text(stu, j'))
    decreases |tea| - i' + |stu| - j'
  {
    if i' == i && j' == j {
      WalkSound(tea, stu, i + 1, j + 1);
    } else if i' == i {
      FirstIsShortest(stu, j', j);
      StepsPast(tea, stu, i, j' + 1, i, j, b);
    } else if j' == j {
      FirstIsShortest(tea, i', i);
      StepsPast(tea, stu, i' + 1, j, i, j, b);
    } else {
      StepsPast(tea, stu, i' + 1, j' + 1, i, j, b);
      StepsPast(tea, stu, i', j' + 1, i, j, b);
      StepsPast(tea, stu, i' + 1, j', i, j, b);
    }
    hide First;
  }

  lemma FirstIsShortest(tokens: seq<string>, i: nat, k: nat)
    requires i < k && First(tokens, k)
    ensures |Text(tokens, i)| < |Text(tokens, k)|
  {
    SameText(tokens, i, k);
    TextPrefix(tokens, i, k);
  }

  // Where the condition fails some match is lost.
  lemma MatchLost(tea: seq<string>, stu: seq<string>, i: nat, j: nat) returns (a: nat, b: nat)
    requires Meeting(tea, stu, i, j) && !NothingLostAt(tea, stu, i, j)
    ensures Match(tea, stu, a, b) && (a, b) !in Walk(tea, stu, 0, 0, "", "")
  {
    var pairs := Walk(tea, stu, 0, 0, "", "");
    var e, f := EmptyRun(tea, i), EmptyRun(stu, j);
    AtMostOne(e, f);
    SameText(tea, i, i + e);
    SameText(stu, j, j + f);
    if e > 0 && f > 0 {
      WalkSound(tea, stu, 0, 0);
      a, b := i, j;
      if (a, b) in pairs && f > 1 {
        b := j + 1;
      } else if (a, b) in pairs {
        a := i + 1;
      }
      SameText(tea, i, a);
      SameText(stu, j, b);
      OnePerSide(pairs, i, j, a, b);
    } else if e == 0 {
      a, b := i, j + f;
      StepsPast(tea, stu, 0, 0, i, j, b);
    } else {
      a, b := i + e, j;
      StepsPast(stu, tea, 0, 0, j, i, a);
      WalkSymmetric(tea, stu, 0, 0, "", "");
      SwappedOut(pairs, a, b);
    }
  }

  // Pairs that increase on both sides use a position once.
  lemma OnePerSide(pairs: Pairs, i: nat, j: nat, a: nat, b: nat)
    requires Increasing(pairs) && (i == a || j == b)
    requires (i, j) in pairs ==> (i, j) != (a, b)
    ensures (i, j) in pairs ==> (a, b) !in pairs
  {
  }

  lemma SwappedOut(pairs: Pairs, a: nat, b: nat)
    ensures (a, b) in pairs <==> (b, a) in Swap(pairs)
  {
    assert forall k :: 0 <= k < |pairs| ==> (pairs[k] == (a, b) <==> Swap(pairs)[k] == (b, a));
  }

  // The alignment is sound for any input; it has all common occurrences exactly when no meeting loses one.
  lemma AlignmentIsAllMatches(tea: seq<string>, stu: seq<string>)
    ensures var pairs := Walk(tea, stu, 0, 0, "", "");
            && Increasing(pairs)
            && (forall a: nat, b: nat :: (a, b) in pairs ==> Match(tea, stu, a, b))
            && ((forall a: nat, b: nat :: Match(tea, stu, a, b) ==> (a, b) in pairs) <==> NothingLost(tea, stu))
  {
    WalkSound(tea, stu, 0, 0);
    var pairs := Walk(tea, stu, 0, 0, "", "");
    hide Walk, Text, Match, NothingLostAt;
    if NothingLost(tea, stu) {
      forall a: nat, b: nat | Match(tea, stu, a, b)
        ensures (a, b) in pairs
      {
        StartOnTrack(tea, stu);
        WalkComplete(tea, stu, 0, 0, a, b);
      }
    } else {
      var i: nat, j: nat :| Meeting(tea, stu, i, j) && !NothingLostAt(tea, stu, i, j);
      var a, b := MatchLost(tea, stu, i, j);
    }
  }

  lemma StartOnTrack(tea: seq<string>, stu: seq<string>)
    ensures OnTrack(tea, stu, 0, 0) && Text(tea, 0) == "" && Text(stu, 0) == ""
  {
  }

  // Tokens that do not normalise to the empty text lose nothing.
  lemma NonEmptyLosesNothing(tea: seq<string>, stu: seq<string>)
    requires NonEmpty(tea) && NonEmpty(stu)
    ensures NothingLost(tea, stu)
  {
  }

  // A single empty token is enough to lose a match.
  lemma EmptyTokenLosesMatch()
    ensures Match(["", "a"], ["a"], 1, 0) && Walk(["", "a"], ["a"], 0, 0, "", "") == []
  {
    assert Text(["", "a"], 1) == Text(["", "a"], 0) + "" == "";
  }

  lemma {:induction false} DistinctSubset(xs: Pairs, ys: Pairs)
    requires forall a, b :: 0 <= a < b < |xs| ==> xs[a] != xs[b]
    requires forall k :: 0 <= k < |xs| ==> xs[k] in ys
    ensures |xs| <= |ys|
  {
    if xs != [] {
      var k :| 0 <= k < |ys| && ys[k] == xs[0];
      var rest := ys[..k] + ys[k + 1..];
      forall m | 0 <= m < |xs[1..]|
        ensures xs[1..][m] in rest
      {
        assert xs[m + 1] in ys && xs[m + 1] != xs[0];
        var q :| 0 <= q < |ys| && ys[q] == xs[m + 1];
        assert rest[if q < k then q else q - 1] == xs[m + 1];
      }
      DistinctSubset(xs[1..], rest);
    }
  }

  // Hence no alignment of common occurrences is longer.
  lemma AlignmentIsMaximum(tea: seq<string>, stu: seq<string>, other: Pairs)
    requires NothingLost(tea, stu)
    requires Increasing(other) && forall k :: 0 <= k < |other| ==> Match(tea, stu, other[k].0, other[k].1)
    ensures |other| <= |Walk(tea, stu, 0, 0, "", "")|
  {
    AlignmentIsAllMatches(tea, stu);
    hide NothingLost, Match, Walk;
    DistinctSubset(other, Walk(tea, stu, 0, 0, "", ""));
  }

  // ------------------------------------------------------------------ raw tokens

  // The second token has one marker more.
  ghost predicate MarkerMore(s: string, t: string) {
    exists a, b, m :: IsMarker(m) && s == a + b && t == a + [m] + b
  }

  // From one stage to the next a marker is inserted or dropped.
  ghost predicate Respelling(stages: seq<string>) {
    forall n: nat :: n + 1 < |stages| ==> MarkerMore(stages[n], stages[n + 1]) || MarkerMore(stages[n + 1], stages[n])
  }

  // Markers make the difference, and neither token is the EOS.
  ghost predicate Respelled(s: string, t: string, eos: Option<string>) {
    eos != Some(s) && eos != Some(t)
    && exists stages :: Respelling(stages) && |stages| > 0 && stages[0] == s && stages[|stages| - 1] == t
  }

  lemma MarkerIsDropped(s: string, t: string)
    requires MarkerMore(s, t)
    ensures Normalize(s) == Normalize(t)
  {
    hide Normalize;
    var a, b, m :| IsMarker(m) && s == a + b && t == a + [m] + b;
    NormalizeConcat(a, b);
    NormalizeConcat(a + [m], b);
    NormalizeConcat(a, [m]);
    NormalizeOne(m);
    assert Normalize(a) + [] == Normalize(a);
  }

  lemma {:induction false} StagesNormalize(stages: seq<string>, n: nat)
    requires n < |stages| && Respelling(stages)
    ensures Normalize(stages[n]) == Normalize(stages[0])
  {
    hide Normalize, MarkerMore;
    if n > 0 {
      StagesNormalize(stages, n - 1);
      assert stages[n - 1 + 1] == stages[n];
      if MarkerMore(stages[n - 1], stages[n]) {
        MarkerIsDropped(stages[n - 1], stages[n]);
      } else {
        MarkerIsDropped(stages[n], stages[n - 1]);
      }
    }
  }

  // Token by token the same, or the same but for markers.
  ghost predicate AllRespelled(ss: seq<string>, ts: seq<string>, eos: Option<string>) {
    && |ss| == |ts|
    && (forall i :: 0 <= i < |ss| ==> ss[i] == ts[i] || Respelled(ss[i], ts[i], eos))
  }

  lemma RespelledCanonical(ss: seq<string>, ts: seq<string>, eos: Option<string>)
    requires AllRespelled(ss, ts, eos)
    ensures CanonicalAll(ss, eos) == CanonicalAll(ts, eos)
  {
    hide Respelling, Normalize;
    forall i | 0 <= i < |ss| && ss[i] != ts[i]
      ensures Canonical(ss[i], eos) == Canonical(ts[i], eos)
    {
      assert Respelled(ss[i], ts[i], eos);
      var stages :| Respelling(stages) && |stages| > 0 && stages[0] == ss[i] && stages[|stages| - 1] == ts[i];
      StagesNormalize(stages, |stages| - 1);
    }
  }

  // The returned index lists do not depend on how the tokenizers mark the start of a word.
  lemma MarkersDoNotMatter(teacher: seq<string>, teacher2: seq<string>, student: seq<string>, student2: seq<string>,
                           teacherEos: Option<string>, studentEos: Option<string>)
    requires AllRespelled(teacher, teacher2, teacherEos) && AllRespelled(student, student2, studentEos)
    ensures Walk(CanonicalAll(teacher, teacherEos), CanonicalAll(student, studentEos), 0, 0, "", "") ==
            Walk(CanonicalAll(teacher2, teacherEos), CanonicalAll(student2, studentEos), 0, 0, "", "")
  {
    RespelledCanonical(teacher, teacher2, teacherEos);
    RespelledCanonical(student, student2, studentEos);
    hide Walk, CanonicalAll;
  }

  // A token without markers stands for itself, and the end-of-sequence token for the common marker.
  lemma {:induction false} PlainToken(token: string)
    requires forall c <- token :: !IsMarker(c)
    ensures Normalize(token) == token
  {
    if token != [] {
      PlainToken(token[1..]);
    }
  }

  lemma CanonicalStandsFor(token: string, eos: Option<string>)
    ensures eos == Some(token) ==> Canonical(token, eos) == EOS_TOKEN_MARKER
    ensures eos != Some(token) && (forall c <- token :: !IsMarker(c)) ==> Canonical(token, eos) == token
  {
    if forall c <- token :: !IsMarker(c) {
      PlainToken(token);
    }
  }

  // The two spellings of one word.
  lemma SpellingsAlign()
    ensures Walk(CanonicalAll(["\U{2581}a"], None), CanonicalAll(["\U{0120}a"], None), 0, 0, "", "") == [(0, 0)]
  {
    Spelling('\U{2581}');
    Spelling('\U{0120}');
    hide Normalize, CanonicalAll;
    WalkUnfolds(["a"], ["a"], 0, 0, "", "");
    WalkUnfolds(["a"], ["a"], 1, 1, "" + "a", "" + "a");
  }

  lemma Spelling(m: char)
    requires IsMarker(m)
    ensures CanonicalAll([[m, 'a']], None) == ["a"]
  {
    hide Normalize;
    NormalizeConcat([m], "a");
    NormalizeOne(m);
    PlainToken("a");
    assert [m] + "a" == [m, 'a'] && [] + "a" == "a";
    assert Canonical([m, 'a'], None) == "a";
  }

  // ------------------------------------------------------------------ symmetry and EOS

  function Swap(pairs: Pairs): Pairs {
    seq(|pairs|, k requires 0 <= k < |pairs| => (pairs[k].1, pairs[k].0))
  }

  lemma {:induction false} WalkSymmetric(tea: seq<string>, stu: seq<string>, i: nat, j: nat, ht: string, hs: string)
    requires i <= |tea| && j <= |stu|
    ensures Walk(stu, tea, j, i, hs, ht) == Swap(Walk(tea, stu, i, j, ht, hs))
    decreases |tea| - i + |stu| - j
  {
    if i == |tea| || j == |stu| {
    } else if ht == hs && tea[i] == stu[j] {
      WalkSymmetric(tea, stu, i + 1, j + 1, ht + tea[i], hs + tea[i]);
    } else if |ht| > |hs| {
      WalkSymmetric(tea, stu, i, j + 1, ht, hs + stu[j]);
    } else if |ht| < |hs| {
      WalkSymmetric(tea, stu, i + 1, j, ht + tea[i], hs);
    } else {
      WalkSymmetric(tea, stu, i + 1, j + 1, ht + tea[i], hs + stu[j]);
    }
  }

  // If both texts agree up to a final end-of-sequence token, and no match is lost, the two final tokens are aligned,
  // whatever the two tokenizers write for it.
  lemma FinalEosAligned(teacher: seq<string>, student: seq<string>, teacherEos: string, studentEos: string)
    requires teacher != [] && student != []
    requires teacher[|teacher| - 1] == teacherEos && student[|student| - 1] == studentEos
    requires var tea, stu := CanonicalAll(teacher, Some(teacherEos)), CanonicalAll(student, Some(studentEos));
             NothingLost(tea, stu) && Text(tea, |tea| - 1) == Text(stu, |stu| - 1)
    ensures var tea, stu := CanonicalAll(teacher, Some(teacherEos)), CanonicalAll(student, Some(studentEos));
            (|teacher| - 1, |student| - 1) in Walk(tea, stu, 0, 0, "", "")
  {
    var tea, stu := CanonicalAll(teacher, Some(teacherEos)), CanonicalAll(student, Some(studentEos));
    AlignmentIsAllMatches(tea, stu);
  }
}
