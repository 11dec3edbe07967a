/** When a checkpoint lineage is accepted, attempt by attempt and link by link. */
module LineageOutcomes {
  import opened Prelude
  import opened CheckpointLineage

  // ---------------------------------------------------------------- one attempt

  /** Token counts that add up and stay in range, and a cost in range. */
  predicate UsageInRange(a: Attempt) {
    && 0 <= a.promptTokens <= 1000000000000 && 0 <= a.completionTokens <= 1000000000000
    && 0 <= a.totalTokens <= 1000000000000 && a.totalTokens == a.promptTokens + a.completionTokens
    && 0.0 <= a.cost <= 1000000000000000.0
  }

  /** The attempt called the pinned model and got an answer. */
  predicate ModelBacked(a: Attempt) {
    && a.modelCallExecuted && (a.status == Accepted || a.status == AcceptedUnchanged)
    && a.skipCode == None && a.response != None
    && (a.servedModel == Some("xiaomi/mimo-v2.5") || a.servedModel == Some("xiaomi/mimo-v2.5-20260422"))
    && a.provider == Some("Xiaomi") && a.totalTokens > 0
  }

  /** The attempt was skipped for the reason its status names, made no call, and used and cost nothing. */
  predicate SkippedFreely(digest: NoCallDigest, a: Attempt, index: int) {
    && !a.modelCallExecuted && a.skipCode.Some?
    && (a.skipCode == Some(NoUsableAtif) ==> a.status == SkippedNoUsableAtif)
    && (a.skipCode == Some(IncompleteHarborEvidence) ==> a.status == SkippedIncompleteEvidence)
    && a.request == digest(index, a.before, a.evidence, a.skipCode.value)
    && a.response == None && a.servedModel == None && a.provider == None
    && a.totalTokens == 0 && a.cost == 0.0
  }

  /** An attempt record is valid exactly when it is in its place, in range, and either backed by the model or skipped for free. */
  lemma AttemptExactlyWhen(digest: NoCallDigest, a: Attempt, index: int)
    ensures AttemptValid(digest, a, index) <==>
              a.index == index && UsageInRange(a) && (ModelBacked(a) || SkippedFreely(digest, a, index))
  {
    match a.skipCode
    case None =>
    case Some(code) =>
      match code {
        case NoUsableAtif =>
        case IncompleteHarborEvidence =>
      }
  }

  // ---------------------------------------------------------------- the chain

  /** The accepted attempts among the first `n`. */
  function AcceptedAmong(attempts: seq<Attempt>, n: nat): set<nat>
    requires n <= |attempts|
  {
    set i | 0 <= i < n && attempts[i].status.Accepted?
  }

  lemma AcceptedGrow(attempts: seq<Attempt>, n: nat)
    requires n < |attempts|
    ensures AcceptedAmong(attempts, n + 1) == AcceptedAmong(attempts, n) + if attempts[n].status.Accepted? then {n} else {}
    ensures |AcceptedAmong(attempts, n + 1)| == |AcceptedAmong(attempts, n)| + if attempts[n].status.Accepted? then 1 else 0
  {
  }

  /**
   * Attempt `i` is valid, starts where the accepted attempts before it ended,
   * and either adds the next link with its own evidence or stays.
   */
  ghost predicate AttemptTells(digest: NoCallDigest, snapshots: map<Sha, Snapshot>, chain: seq<Sha>, attempts: seq<Attempt>, i: nat)
    requires i < |attempts|
  {
    var a, k := attempts[i], |AcceptedAmong(attempts, i)|;
    && a.index == i + 1 && UsageInRange(a) && (ModelBacked(a) || SkippedFreely(digest, a, i + 1))
    && k < |chain| && a.before == chain[k]
    && if a.status.Accepted? then
         k + 1 < |chain| && a.candidate == chain[k + 1] && a.candidate in snapshots && snapshots[a.candidate].evidence == a.evidence
       else a.candidate == chain[k]
  }

  /** The snapshots are one chain from A0 to the candidate, and the attempts build it link by link. */
  ghost predicate LineageTells(digest: NoCallDigest, snapshots: map<Sha, Snapshot>, a0: Sha, candidate: Sha,
                               attempts: seq<Attempt>, chain: seq<Sha>)
  {
    && |chain| == |AcceptedAmong(attempts, |attempts|)| + 1
    && chain[0] == a0 && chain[|chain| - 1] == candidate
    && (forall k | 0 <= k < |chain| :: LinkHolds(snapshots, chain, k))
    && (forall x | x in snapshots :: x in chain)
    && (forall i | 0 <= i < |attempts| :: AttemptTells(digest, snapshots, chain, attempts, i))
  }

  lemma AcceptedBounds(attempts: seq<Attempt>, i: nat, n: nat)
    requires i <= n <= |attempts|
    ensures |AcceptedAmong(attempts, i)| <= |AcceptedAmong(attempts, n)|
  {
    var more := AcceptedAmong(attempts, n) - AcceptedAmong(attempts, i);
    assert AcceptedAmong(attempts, n) == AcceptedAmong(attempts, i) + more;
  }

  /** After `n` attempts the followed chain is the first part of the whole one, one link per accepted attempt. */
  lemma {:induction false} ChainPrefix(a0: Sha, attempts: seq<Attempt>, n: nat)
    requires n <= |attempts|
    ensures var k := |AcceptedAmong(attempts, n)| + 1;
            && |Chain(a0, attempts[..n])| == k <= |Chain(a0, attempts)|
            && Chain(a0, attempts[..n]) == Chain(a0, attempts)[..k]
    decreases |attempts| - n
  {
    ChainSize(a0, attempts, n);
    if n < |attempts| {
      ChainPrefix(a0, attempts, n + 1);
      assert attempts[..n + 1][..n] == attempts[..n];
      AcceptedGrow(attempts, n);
      var k := |AcceptedAmong(attempts, n)| + 1;
      assert Chain(a0, attempts[..n]) == Chain(a0, attempts[..n + 1])[..k];
    } else {
      assert attempts[..n] == attempts;
    }
  }

  lemma {:induction false} ChainSize(a0: Sha, attempts: seq<Attempt>, n: nat)
    requires n <= |attempts|
    ensures |Chain(a0, attempts[..n])| == |AcceptedAmong(attempts, n)| + 1
  {
    if n > 0 {
      ChainSize(a0, attempts, n - 1);
      AcceptedGrow(attempts, n - 1);
      assert attempts[..n][..n - 1] == attempts[..n - 1];
    } else {
      assert AcceptedAmong(attempts, 0) == {};
    }
  }

  lemma AcceptedChainTells(digest: NoCallDigest, snapshots: map<Sha, Snapshot>, a0: Sha, candidate: Sha, attempts: seq<Attempt>)
    requires ChainHolds(digest, snapshots, a0, candidate, attempts)
    ensures LineageTells(digest, snapshots, a0, candidate, attempts, Chain(a0, attempts))
  {
    var chain := Chain(a0, attempts);
    AcceptedLineageIsOneChain(digest, snapshots, a0, candidate, attempts);
    ChainSize(a0, attempts, |attempts|);
    assert attempts[..|attempts|] == attempts;
    forall i | 0 <= i < |attempts| ensures AttemptTells(digest, snapshots, chain, attempts, i) {
      assert Continues(digest, snapshots, a0, attempts, i);
      AttemptExactlyWhen(digest, attempts[i], i + 1);
      AttemptPlace(a0, attempts, i);
    }
    assert forall x | x in snapshots :: x in snapshots.Keys;
  }

  /** Where attempt `i` stands on the chain. */
  lemma AttemptPlace(a0: Sha, attempts: seq<Attempt>, i: nat)
    requires i < |attempts|
    ensures var chain, k := Chain(a0, attempts), |AcceptedAmong(attempts, i)|;
            && k < |chain| && Current(a0, attempts[..i]) == chain[k]
            && (attempts[i].status.Accepted? ==> k + 1 < |chain| && attempts[i].candidate == chain[k + 1])
  {
    ChainPrefix(a0, attempts, i);
    ChainPrefix(a0, attempts, i + 1);
    AcceptedGrow(attempts, i);
    assert attempts[..i + 1][..i] == attempts[..i];
  }

  /** If attempt `i` was accepted, its candidate is the next link. */
  ghost predicate AddsNextLink(attempts: seq<Attempt>, chain: seq<Sha>, i: nat)
    requires i < |attempts|
  {
    var k := |AcceptedAmong(attempts, i)|;
    attempts[i].status.Accepted? ==> k + 1 < |chain| && attempts[i].candidate == chain[k + 1]
  }

  lemma {:induction false} ToldChainIsFollowed(a0: Sha, attempts: seq<Attempt>, chain: seq<Sha>, n: nat)
    requires n <= |attempts| && |AcceptedAmong(attempts, n)| < |chain| && chain[0] == a0
    requires forall i | 0 <= i < n :: AddsNextLink(attempts, chain, i)
    ensures Chain(a0, attempts[..n]) == chain[..|AcceptedAmong(attempts, n)| + 1]
  {
    if n > 0 {
      AcceptedGrow(attempts, n - 1);
      ToldChainIsFollowed(a0, attempts, chain, n - 1);
      assert AddsNextLink(attempts, chain, n - 1);
      ChainStep(a0, attempts, n);
    } else {
      assert AcceptedAmong(attempts, 0) == {};
    }
  }

  lemma ChainStep(a0: Sha, attempts: seq<Attempt>, n: nat)
    requires 0 < n <= |attempts|
    ensures Chain(a0, attempts[..n])
         == Chain(a0, attempts[..n - 1]) + if attempts[n - 1].status.Accepted? then [attempts[n - 1].candidate] else []
  {
    assert attempts[..n][..n - 1] == attempts[..n - 1];
  }

  lemma ToldAttemptContinues(digest: NoCallDigest, snapshots: map<Sha, Snapshot>, a0: Sha, attempts: seq<Attempt>, chain: seq<Sha>, i: nat)
    requires i < |attempts| && AttemptTells(digest, snapshots, chain, attempts, i)
    requires Chain(a0, attempts[..i]) == chain[..|AcceptedAmong(attempts, i)| + 1]
    requires forall k | 0 <= k < |chain| :: LinkHolds(snapshots, chain, k)
    ensures Continues(digest, snapshots, a0, attempts, i)
  {
    var k := |AcceptedAmong(attempts, i)|;
    AttemptExactlyWhen(digest, attempts[i], i + 1);
    assert Current(a0, attempts[..i]) == chain[k];
    assert LinkHolds(snapshots, chain, k);
    if attempts[i].status.Accepted? {
      assert LinkHolds(snapshots, chain, k + 1);
    }
  }

  lemma ToldLineageHolds(digest: NoCallDigest, snapshots: map<Sha, Snapshot>, a0: Sha, candidate: Sha, attempts: seq<Attempt>, chain: seq<Sha>)
    requires LineageTells(digest, snapshots, a0, candidate, attempts, chain)
    ensures ChainHolds(digest, snapshots, a0, candidate, attempts)
  {
    forall i | 0 <= i < |attempts| ensures AddsNextLink(attempts, chain, i) {
      assert AttemptTells(digest, snapshots, chain, attempts, i);
    }
    forall i | 0 <= i < |attempts| ensures Continues(digest, snapshots, a0, attempts, i) {
      AcceptedBounds(attempts, i, |attempts|);
      ToldChainIsFollowed(a0, attempts, chain, i);
      ToldAttemptContinues(digest, snapshots, a0, attempts, chain, i);
    }
    ToldChainIsFollowed(a0, attempts, chain, |attempts|);
    assert attempts[..|attempts|] == attempts && chain[..|chain|] == chain;
    assert LinkHolds(snapshots, chain, 0);
    forall x | x in chain ensures x in snapshots {
      var k :| 0 <= k < |chain| && chain[k] == x;
      assert LinkHolds(snapshots, chain, k);
    }
    assert snapshots.Keys == set x | x in chain;
  }

  /** A lineage is accepted exactly when some chain of its snapshots tells the story of its attempts. */
  lemma AcceptedExactlyWhen(digest: NoCallDigest, snapshots: map<Sha, Snapshot>, a0: Sha, candidate: Sha, attempts: seq<Attempt>)
    ensures ChainHolds(digest, snapshots, a0, candidate, attempts)
            <==> exists chain :: LineageTells(digest, snapshots, a0, candidate, attempts, chain)
  {
    if ChainHolds(digest, snapshots, a0, candidate, attempts) {
      AcceptedChainTells(digest, snapshots, a0, candidate, attempts);
    }
    if chain :| LineageTells(digest, snapshots, a0, candidate, attempts, chain) {
      ToldLineageHolds(digest, snapshots, a0, candidate, attempts, chain);
    }
  }
}
