/** What one rewriting step and a failing run report, and what a count counts. */
module RewriterOutcomes {
  import opened Prelude
  import opened TextOccurrences
  import opened SourceRewriter

  /** The positions at which a pattern occurs. */
  ghost function Occurrences(text: string, w: string): set<nat> {
    set p: nat | 0 <= p <= |text| && OccursAt(text, w, p)
  }

  ghost function OccurrencesFrom(text: string, w: string, start: nat): set<nat> {
    set p: nat | start <= p <= |text| && OccursAt(text, w, p)
  }

  /** Skipping a match, or a character where none starts, skips no other occurrence. */
  lemma NextOccurrences(text: string, w: string, start: nat)
    requires Solid(w) && start + |w| <= |text|
    ensures text[start..start + |w|] == w ==>
              && start !in OccurrencesFrom(text, w, start + |w|)
              && OccurrencesFrom(text, w, start) == OccurrencesFrom(text, w, start + |w|) + {start}
    ensures text[start..start + |w|] != w ==> OccurrencesFrom(text, w, start) == OccurrencesFrom(text, w, start + 1)
  {
    if text[start..start + |w|] == w {
      forall p: nat | start < p < start + |w| ensures !OccursAt(text, w, p) {
        if OccursAt(text, w, p) {
          OverlapStarts(text, w, start, w, p);
        }
      }
      assert OccursAt(text, w, start);
    } else {
      assert !OccursAt(text, w, start);
    }
  }

  lemma NextCount(text: string, w: string, start: nat)
    requires w != "" && start + |w| <= |text|
    ensures Count(text[start..], w)
         == if text[start..start + |w|] == w then 1 + Count(text[start + |w|..], w) else Count(text[start + 1..], w)
  {
    assert text[start..][..|w|] == text[start..start + |w|];
    assert text[start..][|w|..] == text[start + |w|..];
    assert text[start..][1..] == text[start + 1..];
  }

  lemma {:induction false} CountFrom(text: string, w: string, start: nat)
    requires Solid(w) && start <= |text|
    ensures Count(text[start..], w) == |OccurrencesFrom(text, w, start)|
    decreases |text| - start
  {
    if start + |w| > |text| {
      assert OccurrencesFrom(text, w, start) == {};
    } else {
      NextOccurrences(text, w, start);
      NextCount(text, w, start);
      if text[start..start + |w|] == w {
        CountFrom(text, w, start + |w|);
      } else {
        CountFrom(text, w, start + 1);
      }
    }
  }

  /** For a pattern that cannot overlap itself, the left-to-right count is the number of places it occurs. */
  lemma CountIsOccurrences(text: string, w: string)
    requires Solid(w)
    ensures Count(text, w) == |Occurrences(text, w)|
  {
    CountFrom(text, w, 0);
    assert text[0..] == text;
    assert Occurrences(text, w) == OccurrencesFrom(text, w, 0);
  }

  /**
   * One step, complete: a pending pair's only old block is exchanged and all
   * other text kept; an applied pair changes nothing; anything else fails and
   * reports how often each block was found.
   */
  lemma StepOutcome(text: string, pair: Pair) returns (a: string, b: string)
    requires WellBehaved(pair)
    ensures var found, placed := Occurrences(text, pair.before), Occurrences(text, pair.after);
            var r := RewriteOne(text, pair);
            if |found| == 1 && placed == {} then
              && text == a + pair.before + b && found == {|a|} && r == Ok(a + pair.after + b)
            else if |placed| == 1 && |found| == |Occurrences(pair.after, pair.before)| then r == Ok(text)
            else r == Err(Mismatch(|found|, |placed|))
  {
    CountIsOccurrences(text, pair.before);
    CountIsOccurrences(text, pair.after);
    CountIsOccurrences(pair.after, pair.before);
    a, b := "", "";
    if Pending(text, pair) {
      a, b := PendingBecomesDone(text, pair);
      assert text[|a|..|a| + |pair.before|] == pair.before;
      assert |a| in Occurrences(text, pair.before);
      OnlyMember(Occurrences(text, pair.before), |a|);
    }
  }

  lemma OnlyMember(s: set<nat>, x: nat)
    requires |s| == 1 && x in s
    ensures s == {x}
  {
    assert |s - {x}| == 0;
    assert s == (s - {x}) + {x};
  }

  /** A failing run stopped at the first pair that did not fit the text so far, and reports that pair's counts. */
  lemma {:induction false} FailureNamesFirstMisfit(text: string, pairs: seq<Pair>) returns (k: nat)
    requires NonEmpty(pairs) && Prepare(text, pairs).Err?
    ensures k < |pairs| && Prepare(text, pairs[..k]).Ok?
    ensures RewriteOne(Prepare(text, pairs[..k]).value, pairs[k]) == Prepare(text, pairs)
  {
    var n := |pairs| - 1;
    if Prepare(text, pairs[..n]).Err? {
      k := FailureNamesFirstMisfit(text, pairs[..n]);
      assert pairs[..n][..k] == pairs[..k];
    } else {
      k := n;
    }
  }
}
