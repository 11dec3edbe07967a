/** The idempotent source rewriter: a loop over (old, new) pattern pairs with an occurrence contract. */
module SourceRewriter {
  import opened Prelude
  import opened TextOccurrences

  datatype Pair = Pair(before: string, after: string)

  /** The contract violation, with the counts the error message reports. */
  datatype Mismatch = Mismatch(oldCount: nat, newCount: nat)

  /** What the loop body does with one pair. */
  function RewriteOne(text: string, pair: Pair): Result<string, Mismatch>
    requires pair.before != "" && pair.after != ""
  {
    var oldCount, newCount := Count(text, pair.before), Count(text, pair.after);
    if oldCount == 1 && newCount == 0 then Ok(ReplaceFirst(text, pair.before, pair.after))
    else if newCount == 1 && oldCount == Count(pair.after, pair.before) then Ok(text)
    else Err(Mismatch(oldCount, newCount))
  }

  ghost predicate NonEmpty(pairs: seq<Pair>) {
    forall i | 0 <= i < |pairs| :: pairs[i].before != "" && pairs[i].after != ""
  }

  function Prepare(text: string, pairs: seq<Pair>): Result<string, Mismatch>
    requires NonEmpty(pairs)
  {
    if pairs == [] then Ok(text)
    else
      var earlier := Prepare(text, pairs[..|pairs| - 1]);
      if earlier.Err? then earlier else RewriteOne(earlier.value, pairs[|pairs| - 1])
  }

  /** `prepare_claude_code_source`: rebind the text pair by pair, or raise at the first pair that does not fit. */
  method PrepareSource(original: string, pairs: seq<Pair>) returns (r: Result<string, Mismatch>)
    requires NonEmpty(pairs)
    ensures r == Prepare(original, pairs)
  {
    var prepared := original;
    for i := 0 to |pairs|
      invariant Prepare(original, pairs[..i]) == Ok(prepared)
    {
      assert pairs[..i + 1][..i] == pairs[..i];
      var oldCount := Count(prepared, pairs[i].before);
      var newCount := Count(prepared, pairs[i].after);
      if oldCount == 1 && newCount == 0 {
        prepared := ReplaceFirst(prepared, pairs[i].before, pairs[i].after);
      } else if newCount == 1 && oldCount == Count(pairs[i].after, pairs[i].before) {
        continue;
      } else {
        PrefixFails(original, pairs, i + 1);
        return Err(Mismatch(oldCount, newCount));
      }
    }
    assert pairs[..|pairs|] == pairs;
    return Ok(prepared);
  }

  lemma {:induction false} PrefixFails(text: string, pairs: seq<Pair>, n: nat)
    requires NonEmpty(pairs) && n <= |pairs| && Prepare(text, pairs[..n]).Err?
    ensures Prepare(text, pairs) == Prepare(text, pairs[..n])
  {
    if n < |pairs| {
      assert pairs[..|pairs| - 1][..n] == pairs[..n];
      PrefixFails(text, pairs[..|pairs| - 1], n);
    } else {
      assert pairs[..n] == pairs;
    }
  }

  // ---------------------------------------------------------------- which pairs behave

  /**
   * A pair that can be applied safely: neither side overlaps itself, the old
   * text starts inside the new one at most once and then lies wholly in it,
   * and the new text never starts inside the old one.
   */
  ghost predicate WellBehaved(pair: Pair) {
    && Solid(pair.before) && Solid(pair.after) && pair.before != pair.after
    && (forall s: nat | s > 0 :: !Starts(pair.before, pair.after, s))
    && (forall s: nat | Starts(pair.after, pair.before, s) :: OnlyAt(pair.after, pair.before, s))
  }

  ghost predicate Unrelated(p: Pair, q: Pair) {
    Apart(p.before, q.before) && Apart(p.before, q.after) && Apart(p.after, q.before) && Apart(p.after, q.after)
  }

  ghost predicate Compatible(pairs: seq<Pair>) {
    && (forall i | 0 <= i < |pairs| :: WellBehaved(pairs[i]))
    && (forall i, j | 0 <= i < |pairs| && 0 <= j < |pairs| && i != j :: Unrelated(pairs[i], pairs[j]))
  }

  /** The pair is still to be applied. */
  predicate Pending(text: string, pair: Pair)
    requires pair.before != "" && pair.after != ""
  {
    Count(text, pair.before) == 1 && Count(text, pair.after) == 0
  }

  /** The pair has been applied: the new text is there once and the old text only as part of it. */
  predicate Done(text: string, pair: Pair)
    requires pair.before != "" && pair.after != ""
  {
    Count(text, pair.after) == 1 && Count(text, pair.before) == Count(pair.after, pair.before)
  }

  lemma EmbeddedAtMostOnce(pair: Pair)
    requires WellBehaved(pair)
    ensures Count(pair.after, pair.before) <= 1
    ensures Count(pair.after, pair.before) == 1 <==> exists s: nat :: OnlyAt(pair.after, pair.before, s)
  {
    CountZero(pair.after, pair.before);
    CountOne(pair.after, pair.before);
    if !Absent(pair.after, pair.before) {
      var s: nat :| OccursAt(pair.after, pair.before, s);
      assert Starts(pair.after, pair.before, s);
    }
  }

  /** Applying a pending pair makes it done. */
  lemma PendingBecomesDone(text: string, pair: Pair) returns (a: string, b: string)
    requires WellBehaved(pair) && Pending(text, pair)
    ensures text == a + pair.before + b
    ensures ReplaceFirst(text, pair.before, pair.after) == a + pair.after + b
    ensures Done(a + pair.after + b, pair)
  {
    var o, n := pair.before, pair.after;
    CountOne(text, o);
    CountZero(text, n);
    var p: nat :| OnlyAt(text, o, p);
    ReplaceSplices(text, o, n, p);
    a, b := text[..p], text[p + |o|..];
    assert text[p..p + |o|] == o;
    assert text == a + o + b;
    NewOnlyAtSplice(pair, a, b);
    CountOne(a + n + b, n);
    OldOnlyInsideNew(text, pair, a, b);
  }

  lemma NewOnlyAtSplice(pair: Pair, a: string, b: string)
    requires WellBehaved(pair) && Absent(a + pair.before + b, pair.after)
    ensures OnlyAt(a + pair.after + b, pair.after, |a|)
  {
    var o, n := pair.before, pair.after;
    var t := a + n + b;
    assert t[|a|..|a| + |n|] == n;
    assert OccursAt(t, n, |a|);
    forall q: nat | OccursAt(t, n, q) ensures q == |a| {
      if q != |a| {
        Elsewhere(a, o, n, b, n, q);
      }
    }
  }

  /** An occurrence beside the inserted text was there before the replacement. */
  lemma Elsewhere(a: string, o: string, n: string, b: string, w: string, q: nat)
    requires w != "" && n != "" && OccursAt(a + n + b, w, q)
    requires forall s: nat | s > 0 :: !Starts(w, n, s)
    requires q < |a| || (q >= |a| && !Starts(n, w, q - |a|))
    ensures exists r: nat :: OccursAt(a + o + b, w, r) && (q < |a| ==> r == q && q + |w| <= |a|)
                          && (q >= |a| ==> r >= |a| + |o|)
  {
    var t := a + n + b;
    assert t[|a|..|a| + |n|] == n;
    assert OccursAt(t, n, |a|);
    if q < |a| {
      if q + |w| > |a| {
        OverlapStarts(t, w, q, n, |a|);
      }
      OccursOutside(a, n, b, w, q);
      OccursOutside(a, o, b, w, q);
    } else {
      if q < |a| + |n| {
        OverlapStarts(t, n, |a|, w, q);
      }
      OccursOutside(a, n, b, w, q - |a| - |n|);
      OccursOutside(a, o, b, w, q - |a| - |n|);
    }
  }

  lemma OldStartsInsideNew(pair: Pair, a: string, b: string, q: nat)
    requires WellBehaved(pair) && OnlyAt(a + pair.before + b, pair.before, |a|)
    requires OccursAt(a + pair.after + b, pair.before, q)
    ensures q >= |a| && OnlyAt(pair.after, pair.before, q - |a|)
  {
    if q < |a| || !Starts(pair.after, pair.before, q - |a|) {
      Elsewhere(a, pair.before, pair.after, b, pair.before, q);
    }
  }

  lemma OldOnlyInsideNew(text: string, pair: Pair, a: string, b: string)
    requires WellBehaved(pair) && text == a + pair.before + b && OnlyAt(text, pair.before, |a|)
    ensures Count(a + pair.after + b, pair.before) == Count(pair.after, pair.before)
  {
    var o, n := pair.before, pair.after;
    var t := a + n + b;
    EmbeddedAtMostOnce(pair);
    if Count(n, o) == 1 {
      var s: nat :| OnlyAt(n, o, s);
      assert t[|a| + s..|a| + s + |o|] == n[s..s + |o|];
      forall q: nat | OccursAt(t, o, q) ensures q == |a| + s {
        OldStartsInsideNew(pair, a, b, q);
      }
      assert OnlyAt(t, o, |a| + s);
      CountOne(t, o);
    } else {
      CountZero(n, o);
      forall q: nat ensures !OccursAt(t, o, q) {
        if OccursAt(t, o, q) {
          OldStartsInsideNew(pair, a, b, q);
        }
      }
      CountZero(t, o);
    }
  }

  /** One step keeps the status of every unrelated pair. */
  lemma StepKeepsStatus(text: string, pair: Pair, other: Pair)
    requires WellBehaved(pair) && WellBehaved(other) && Unrelated(other, pair)
    requires RewriteOne(text, pair).Ok?
    ensures var next := RewriteOne(text, pair).value;
            && (Done(text, other) <==> Done(next, other))
            && (Pending(text, other) <==> Pending(next, other))
  {
    if Pending(text, pair) {
      var a, b := PendingBecomesDone(text, pair);
      EmbeddedAtMostOnce(other);
      CountsCarryOver(a, pair, b, other.before);
      CountsCarryOver(a, pair, b, other.after);
    }
  }

  lemma CountsCarryOver(a: string, pair: Pair, b: string, w: string)
    requires Solid(w) && Apart(w, pair.before) && Apart(w, pair.after)
    ensures var t, u := Count(a + pair.before + b, w), Count(a + pair.after + b, w);
            (t <= 1 ==> u == t) && (u <= 1 ==> t == u)
  {
    if Count(a + pair.before + b, w) <= 1 {
      ReplacementKeepsOthers(a, pair.before, pair.after, b, w);
    }
    if Count(a + pair.after + b, w) <= 1 {
      ReplacementKeepsOthers(a, pair.after, pair.before, b, w);
    }
  }

  // ---------------------------------------------------------------- whole runs of the loop

  /**
   * The loop succeeds if and only if every pair is either pending or already
   * applied in the ORIGINAL text, and then every pair is applied in the result.
   */
  lemma {:induction false} PrepareCharacterised(text: string, pairs: seq<Pair>)
    requires Compatible(pairs)
    ensures Prepare(text, pairs).Ok? <==> forall i | 0 <= i < |pairs| :: Pending(text, pairs[i]) || Done(text, pairs[i])
    ensures Prepare(text, pairs).Ok? ==> forall i | 0 <= i < |pairs| :: Done(Prepare(text, pairs).value, pairs[i])
  {
    PrepareWithOthers(text, pairs, |pairs|);
    assert pairs[..|pairs|] == pairs;
  }

  lemma {:induction false} PrepareWithOthers(text: string, pairs: seq<Pair>, n: nat)
    requires Compatible(pairs) && n <= |pairs|
    ensures var r := Prepare(text, pairs[..n]);
            && (r.Ok? <==> forall i | 0 <= i < n :: Pending(text, pairs[i]) || Done(text, pairs[i]))
            && (r.Ok? ==> forall i | 0 <= i < n :: Done(r.value, pairs[i]))
            && (r.Ok? ==> forall i | n <= i < |pairs| ::
                  (Done(text, pairs[i]) <==> Done(r.value, pairs[i])) && (Pending(text, pairs[i]) <==> Pending(r.value, pairs[i])))
  {
    if n > 0 {
      PrepareWithOthers(text, pairs, n - 1);
      assert pairs[..n][..n - 1] == pairs[..n - 1];
      var earlier := Prepare(text, pairs[..n - 1]);
      if earlier.Ok? {
        var t := earlier.value;
        var pair := pairs[n - 1];
        if RewriteOne(t, pair).Ok? {
          forall i | 0 <= i < |pairs| && i != n - 1
            ensures Done(t, pairs[i]) <==> Done(RewriteOne(t, pair).value, pairs[i])
            ensures Pending(t, pairs[i]) <==> Pending(RewriteOne(t, pair).value, pairs[i])
          {
            StepKeepsStatus(t, pair, pairs[i]);
          }
          if Pending(t, pair) {
            var a, b := PendingBecomesDone(t, pair);
          }
        }
      }
    }
  }

  lemma {:induction false} DoneTextIsFixed(text: string, pairs: seq<Pair>)
    requires NonEmpty(pairs) && forall i | 0 <= i < |pairs| :: Done(text, pairs[i])
    ensures Prepare(text, pairs) == Ok(text)
  {
    if pairs != [] {
      DoneTextIsFixed(text, pairs[..|pairs| - 1]);
      assert Done(text, pairs[|pairs| - 1]);
    }
  }

  /** Idempotence: whatever the loop returns, running it again returns unchanged. */
  lemma PrepareIsIdempotent(text: string, pairs: seq<Pair>)
    requires Compatible(pairs) && Prepare(text, pairs).Ok?
    ensures Prepare(Prepare(text, pairs).value, pairs) == Prepare(text, pairs)
  {
    PrepareCharacterised(text, pairs);
    DoneTextIsFixed(Prepare(text, pairs).value, pairs);
  }
}
