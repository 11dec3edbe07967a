/** Counting and replacing substrings the way Python's `str.count` and `str.replace(old, new, 1)` do. */
module TextOccurrences {

  ghost predicate OccursAt(text: string, w: string, p: nat) {
    p + |w| <= |text| && text[p..p + |w|] == w
  }

  /** Non-overlapping occurrences, scanned from the left. */
  function Count(text: string, w: string): nat
    requires w != ""
  {
    if |text| < |w| then 0
    else if text[..|w|] == w then 1 + Count(text[|w|..], w)
    else Count(text[1..], w)
  }

  /** Replace the leftmost occurrence. */
  function ReplaceFirst(text: string, w: string, n: string): string
    requires w != ""
  {
    if |text| < |w| then text
    else if text[..|w|] == w then n + text[|w|..]
    else [text[0]] + ReplaceFirst(text[1..], w, n)
  }

  /** `w` laid over `u` from offset `s` agrees with `u` as far as both reach. */
  ghost predicate Starts(u: string, w: string, s: nat) {
    s < |u| && forall k | 0 <= k < |w| && s + k < |u| :: u[s + k] == w[k]
  }

  /** No occurrence of one can touch an occurrence of the other, in any text. */
  ghost predicate Apart(u: string, w: string) {
    forall s: nat :: !Starts(u, w, s) && !Starts(w, u, s)
  }

  /** Occurrences of `w` never overlap each other. */
  ghost predicate Solid(w: string) {
    w != "" && forall s: nat | s > 0 :: !Starts(w, w, s)
  }

  ghost predicate Absent(text: string, w: string) {
    forall p: nat :: !OccursAt(text, w, p)
  }

  ghost predicate OnlyAt(text: string, w: string, p: nat) {
    OccursAt(text, w, p) && forall q: nat | OccursAt(text, w, q) :: q == p
  }

  lemma OverlapStarts(text: string, u: string, p: nat, w: string, q: nat)
    requires OccursAt(text, u, p) && OccursAt(text, w, q) && p <= q < p + |u|
    ensures Starts(u, w, q - p)
  {
    forall k | 0 <= k < |w| && q - p + k < |u| ensures u[q - p + k] == w[k] {
      assert text[p..p + |u|][q - p + k] == text[q + k];
      assert text[q..q + |w|][k] == text[q + k];
    }
  }

  lemma OccursInTail(text: string, w: string, n: nat, p: nat)
    requires n <= |text|
    ensures OccursAt(text[n..], w, p) <==> OccursAt(text, w, n + p)
  {
    if n + p + |w| <= |text| {
      assert text[n..][p..p + |w|] == text[n + p..n + p + |w|];
    }
  }

  /** Unless the text starts with it, a pattern is absent exactly when it is absent from the rest. */
  lemma AbsentFromTail(text: string, w: string)
    requires w != "" && |text| >= |w| && text[..|w|] != w
    ensures Absent(text[1..], w) <==> Absent(text, w)
  {
    if p: nat :| OccursAt(text, w, p) {
      assert p != 0;
      OccursInTail(text, w, 1, p - 1);
    }
    if p: nat :| OccursAt(text[1..], w, p) {
      OccursInTail(text, w, 1, p);
    }
  }

  lemma {:induction false} CountZero(text: string, w: string)
    requires w != ""
    ensures Count(text, w) == 0 <==> Absent(text, w)
  {
    if |text| < |w| {
    } else if text[..|w|] == w {
      assert text[0..0 + |w|] == w;
      assert OccursAt(text, w, 0);
    } else {
      CountZero(text[1..], w);
      AbsentFromTail(text, w);
    }
  }

  lemma {:induction false} CountOne(text: string, w: string)
    requires Solid(w)
    ensures Count(text, w) == 1 <==> exists p: nat :: OnlyAt(text, w, p)
  {
    if |text| < |w| {
    } else if text[..|w|] == w {
      assert text[0..0 + |w|] == w;
      assert OccursAt(text, w, 0);
      CountZero(text[|w|..], w);
      forall p: nat | p > 0 ensures OccursAt(text, w, p) <==> p >= |w| && OccursAt(text[|w|..], w, p - |w|) {
        if p >= |w| {
          OccursInTail(text, w, |w|, p - |w|);
        } else if OccursAt(text, w, p) {
          OverlapStarts(text, w, 0, w, p);
        }
      }
      assert Absent(text[|w|..], w) ==> OnlyAt(text, w, 0);
      if !Absent(text[|w|..], w) {
        var q: nat :| OccursAt(text[|w|..], w, q);
        OccursInTail(text, w, |w|, q);
        assert OccursAt(text, w, |w| + q);
      }
    } else {
      CountOne(text[1..], w);
      ShiftOnly(text, w);
    }
  }

  lemma ShiftOnly(text: string, w: string)
    requires w != "" && |text| >= |w| && text[..|w|] != w
    ensures (exists p: nat :: OnlyAt(text[1..], w, p)) <==> (exists p: nat :: OnlyAt(text, w, p))
    ensures forall p: nat :: OnlyAt(text, w, p) ==> p > 0 && OnlyAt(text[1..], w, p - 1)
  {
    assert text[0..0 + |w|] == text[..|w|];
    forall p: nat ensures OccursAt(text, w, p) ==> p > 0 && OccursAt(text[1..], w, p - 1) {
      if p > 0 {
        OccursInTail(text, w, 1, p - 1);
      }
    }
    forall p: nat ensures OccursAt(text[1..], w, p) ==> OccursAt(text, w, p + 1) {
      OccursInTail(text, w, 1, p);
    }
    forall p: nat | OnlyAt(text[1..], w, p) ensures OnlyAt(text, w, p + 1) {
    }
    forall p: nat | OnlyAt(text, w, p) ensures p > 0 && OnlyAt(text[1..], w, p - 1) {
    }
  }

  lemma {:induction false} ReplaceSplices(text: string, w: string, n: string, p: nat)
    requires w != "" && OnlyAt(text, w, p)
    ensures ReplaceFirst(text, w, n) == text[..p] + n + text[p + |w|..]
  {
    if text[..|w|] == w {
      assert text[0..0 + |w|] == w;
      assert OccursAt(text, w, 0);
      assert text[..0] + n + text[0 + |w|..] == n + text[|w|..];
    } else {
      ShiftOnly(text, w);
      ReplaceSplices(text[1..], w, n, p - 1);
      assert [text[0]] + text[1..][..p - 1] == text[..p];
      assert text[1..][p - 1 + |w|..] == text[p + |w|..];
    }
  }

  // ---------------------------------------------------------------- replacing one occurrence

  /** An occurrence that lies wholly before or wholly after the middle part, whatever the middle is. */
  lemma OccursOutside(a: string, m: string, b: string, w: string, q: nat)
    ensures q + |w| <= |a| ==> (OccursAt(a + m + b, w, q) <==> OccursAt(a, w, q))
    ensures OccursAt(a + m + b, w, |a| + |m| + q) <==> OccursAt(b, w, q)
  {
    var text := a + m + b;
    if q + |w| <= |a| {
      assert text[q..q + |w|] == a[q..q + |w|];
    }
    OccursInTail(text, w, |a| + |m|, q);
    assert text[|a| + |m|..] == b;
  }

  /** Replacing `o` by `n` neither makes nor breaks an occurrence of a pattern that is apart from both. */
  lemma ReplacementKeepsOthers(a: string, o: string, n: string, b: string, w: string)
    requires Solid(w) && Apart(w, o) && Apart(w, n)
    requires Count(a + o + b, w) <= 1
    ensures Count(a + n + b, w) == Count(a + o + b, w)
  {
    var before, after := a + o + b, a + n + b;
    CountZero(before, w);
    CountZero(after, w);
    if Absent(before, w) {
      forall q: nat ensures !OccursAt(after, w, q) {
        if OccursAt(after, w, q) {
          var r := Carry(a, n, o, b, w, q);
        }
      }
    } else {
      CountOne(before, w);
      var p: nat :| OnlyAt(before, w, p);
      var p' := Carry(a, o, n, b, w, p);
      forall q: nat | OccursAt(after, w, q) ensures q == p' {
        var r := Carry(a, n, o, b, w, q);
        assert r == p;
      }
      assert OnlyAt(after, w, p');
      CountOne(after, w);
    }
  }

  /** Where an occurrence in `a + m + b` sits once the middle is exchanged. */
  lemma Carry(a: string, m: string, m': string, b: string, w: string, q: nat) returns (r: nat)
    requires w != "" && Apart(w, m) && OccursAt(a + m + b, w, q)
    ensures OccursAt(a + m' + b, w, r)
    ensures if q < |a| then r == q && q + |w| <= |a| else q >= |a| + |m| && r == q - |m| + |m'|
  {
    var text := a + m + b;
    assert text[|a|..|a| + |m|] == m;
    assert OccursAt(text, m, |a|);
    if q < |a| {
      if q + |w| > |a| {
        OverlapStarts(text, w, q, m, |a|);
      }
      OccursOutside(a, m, b, w, q);
      OccursOutside(a, m', b, w, q);
      r := q;
    } else {
      if q < |a| + |m| {
        OverlapStarts(text, m, |a|, w, q);
      }
      OccursOutside(a, m, b, w, q - |a| - |m|);
      OccursOutside(a, m', b, w, q - |a| - |m|);
      r := q - |m| + |m'|;
    }
  }
}
