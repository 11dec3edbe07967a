/**
 * The checkpoint checker of the pilot verifier: snapshots that point at their
 * parents, and a chain of update attempts that must explain all of them.
 */
module CheckpointLineage {
  import opened Prelude
  import opened PilotBounds

  type Sha = string

  /** A harness snapshot, keyed elsewhere by its own digest. */
  datatype Snapshot = Snapshot(generation: nat, parent: Option<Sha>, evidence: Sha)

  datatype SkipCode = NoUsableAtif | IncompleteHarborEvidence

  datatype Status = Accepted | AcceptedUnchanged | SkippedNoUsableAtif | SkippedIncompleteEvidence

  datatype Attempt = Attempt(
    index: int, status: Status, modelCallExecuted: bool, skipCode: Option<SkipCode>, before: Sha, candidate: Sha,
    evidence: Sha, request: Sha, response: Option<Sha>, servedModel: Option<string>, provider: Option<string>,
    promptTokens: int, completionTokens: int, totalTokens: int, cost: real)

  /** The identities a model-backed attempt must carry. */
  const API_MODEL := "xiaomi/mimo-v2.5"
  const CANONICAL_MODEL := "xiaomi/mimo-v2.5-20260422"
  const PROVIDER := "Xiaomi"

  /** Digest of the request record of an attempt that made no model call. */
  type NoCallDigest = (int, Sha, Sha, SkipCode) -> Sha

  datatype LineageError =
    | MissingSnapshot | BadRoot | IncompleteLineage | Cycle | NotRooted | BadAttempt | AttemptDrifted
    | NoChildSnapshot | UnchangedMoved | WrongCandidate | WrongInventory

  function StatusOfSkip(code: SkipCode): Status {
    match code
    case NoUsableAtif => SkippedNoUsableAtif
    case IncompleteHarborEvidence => SkippedIncompleteEvidence
  }

  /** `_validate_checkpoint_attempt`. */
  predicate AttemptValid(digest: NoCallDigest, a: Attempt, expectedIndex: int) {
    && (a.skipCode.Some? ==> a.status.SkippedNoUsableAtif? || a.status.SkippedIncompleteEvidence?)
    && a.index == expectedIndex
    && Bounded(a.promptTokens) && Bounded(a.completionTokens) && Bounded(a.totalTokens)
    && a.totalTokens == a.promptTokens + a.completionTokens
    && BoundedCost(a.cost)
    && if a.modelCallExecuted then
         && (a.status.Accepted? || a.status.AcceptedUnchanged?) && a.skipCode.None?
         && a.response.Some?
         && (a.servedModel == Some(API_MODEL) || a.servedModel == Some(CANONICAL_MODEL))
         && a.provider == Some(PROVIDER)
         && a.totalTokens > 0
       else
         && a.skipCode.Some? && StatusOfSkip(a.skipCode.value) == a.status
         && a.request == digest(expectedIndex, a.before, a.evidence, a.skipCode.value)
         && a.response.None? && a.servedModel.None? && a.provider.None?
         && a.promptTokens == 0 && a.completionTokens == 0 && a.totalTokens == 0 && a.cost == 0.0
  }

  // ---------------------------------------------------------------- walking to the root

  /** The snapshot reached from `start` by following `n` parent pointers. */
  function Ancestor(snapshots: map<Sha, Snapshot>, start: Sha, n: nat): Option<Sha> {
    if n == 0 then Some(start)
    else
      var below := Ancestor(snapshots, start, n - 1);
      if below.None? || below.value !in snapshots then None else snapshots[below.value].parent
  }

  ghost predicate Rooted(snapshots: map<Sha, Snapshot>, a0: Sha, start: Sha) {
    exists n: nat :: Ancestor(snapshots, start, n) == Some(a0)
  }

  /**
   * The inner walk of the checkpoint checker. It always stops: each step adds
   * a snapshot to `seen`, and there are only so many.
   */
  method WalkToRoot(snapshots: map<Sha, Snapshot>, a0: Sha, start: Sha) returns (r: Option<LineageError>)
    requires a0 in snapshots && start in snapshots
    ensures r.None? <==> Rooted(snapshots, a0, start)
  {
    var seen: set<Sha> := {};
    var cursor := start;
    ghost var path: seq<Sha> := [];
    while cursor != a0
      invariant cursor in snapshots && seen <= snapshots.Keys
      invariant Ancestor(snapshots, start, |path|) == Some(cursor)
      invariant forall j | 0 <= j < |path| :: Ancestor(snapshots, start, j) == Some(path[j]) && path[j] != a0
      invariant forall x :: x in seen <==> x in path
      decreases snapshots.Keys - seen
    {
      if cursor in seen {
        ghost var j :| 0 <= j < |path| && path[j] == cursor;
        RevisitNeverEnds(snapshots, a0, start, j, |path|);
        return Some(Cycle);
      }
      seen := seen + {cursor};
      path := path + [cursor];
      var parent := snapshots[cursor].parent;
      if parent.None? || parent.value !in snapshots {
        DeadEnd(snapshots, a0, start, |path|);
        return Some(NotRooted);
      }
      cursor := parent.value;
    }
    return None;
  }

  /** Two equal ancestors repeat everything between them forever. */
  lemma {:induction false} Repeats(snapshots: map<Sha, Snapshot>, start: Sha, j: nat, k: nat, n: nat)
    requires j < k <= n && Ancestor(snapshots, start, j) == Ancestor(snapshots, start, k)
    ensures Ancestor(snapshots, start, n) == Ancestor(snapshots, start, n - (k - j))
  {
    if n > k {
      Repeats(snapshots, start, j, k, n - 1);
    }
  }

  lemma {:induction false} StaysInLoop(snapshots: map<Sha, Snapshot>, start: Sha, j: nat, k: nat, n: nat)
    requires j < k && Ancestor(snapshots, start, j) == Ancestor(snapshots, start, k)
    ensures exists m: nat :: m < k && Ancestor(snapshots, start, n) == Ancestor(snapshots, start, m)
    decreases n
  {
    if n >= k {
      Repeats(snapshots, start, j, k, n);
      StaysInLoop(snapshots, start, j, k, n - (k - j));
    }
  }

  lemma RevisitNeverEnds(snapshots: map<Sha, Snapshot>, a0: Sha, start: Sha, j: nat, k: nat)
    requires j < k && Ancestor(snapshots, start, j) == Ancestor(snapshots, start, k)
    requires forall m: nat | m < k :: Ancestor(snapshots, start, m) != Some(a0)
    ensures !Rooted(snapshots, a0, start)
  {
    forall n: nat ensures Ancestor(snapshots, start, n) != Some(a0) {
      StaysInLoop(snapshots, start, j, k, n);
    }
  }

  lemma {:induction false} NothingAbove(snapshots: map<Sha, Snapshot>, start: Sha, k: nat, n: nat)
    requires Ancestor(snapshots, start, k).None? || Ancestor(snapshots, start, k).value !in snapshots
    requires n > k
    ensures Ancestor(snapshots, start, n).None?
  {
    if n > k + 1 {
      NothingAbove(snapshots, start, k, n - 1);
    }
  }

  lemma DeadEnd(snapshots: map<Sha, Snapshot>, a0: Sha, start: Sha, k: nat)
    requires a0 in snapshots
    requires Ancestor(snapshots, start, k).None? || Ancestor(snapshots, start, k).value !in snapshots
    requires forall m: nat | m < k :: Ancestor(snapshots, start, m) != Some(a0)
    ensures !Rooted(snapshots, a0, start)
  {
    forall n: nat ensures Ancestor(snapshots, start, n) != Some(a0) {
      if n > k {
        NothingAbove(snapshots, start, k, n);
      }
    }
  }

  // ---------------------------------------------------------------- the attempt chain

  /** A0 and then the candidate of every accepted attempt, in order. */
  function Chain(a0: Sha, attempts: seq<Attempt>): (chain: seq<Sha>)
    ensures chain != [] && chain[0] == a0
  {
    if attempts == [] then [a0]
    else
      var last := attempts[|attempts| - 1];
      Chain(a0, attempts[..|attempts| - 1]) + if last.status.Accepted? then [last.candidate] else []
  }

  function Current(a0: Sha, attempts: seq<Attempt>): Sha {
    var chain := Chain(a0, attempts);
    chain[|chain| - 1]
  }

  /** Attempt `i` starts from the current candidate and moves it only to a child of it. */
  ghost predicate Continues(digest: NoCallDigest, snapshots: map<Sha, Snapshot>, a0: Sha, attempts: seq<Attempt>, i: nat)
    requires i < |attempts|
  {
    var a, current := attempts[i], Current(a0, attempts[..i]);
    && AttemptValid(digest, a, i + 1)
    && a.before == current
    && if a.status.Accepted? then
         && a.candidate in snapshots && current in snapshots
         && snapshots[a.candidate].parent == Some(current)
         && snapshots[a.candidate].generation == snapshots[current].generation + 1
         && snapshots[a.candidate].evidence == a.evidence
       else a.candidate == current
  }

  /** What the checker accepts, without the walk over all snapshots. */
  ghost predicate ChainHolds(digest: NoCallDigest, snapshots: map<Sha, Snapshot>, a0: Sha, candidate: Sha, attempts: seq<Attempt>) {
    && a0 in snapshots && snapshots[a0].generation == 0 && snapshots[a0].parent.None?
    && (forall i | 0 <= i < |attempts| :: Continues(digest, snapshots, a0, attempts, i))
    && Current(a0, attempts) == candidate
    && snapshots.Keys == (set x | x in Chain(a0, attempts))
  }

  ghost predicate ParentsHold(snapshots: map<Sha, Snapshot>, a0: Sha) {
    forall x | x in snapshots && x != a0 ::
      && snapshots[x].parent.Some? && snapshots[x].parent.value in snapshots
      && snapshots[x].generation == snapshots[snapshots[x].parent.value].generation + 1
      && Rooted(snapshots, a0, x)
  }

  /** Check every snapshot's parent, generation and path to the root, in any order. */
  method CheckParents(snapshots: map<Sha, Snapshot>, a0: Sha) returns (r: Option<LineageError>)
    requires a0 in snapshots
    ensures r.None? <==> ParentsHold(snapshots, a0)
  {
    var remaining := snapshots.Keys;
    while remaining != {}
      invariant remaining <= snapshots.Keys
      invariant forall x | x in snapshots && x !in remaining && x != a0 ::
                  && snapshots[x].parent.Some? && snapshots[x].parent.value in snapshots
                  && snapshots[x].generation == snapshots[snapshots[x].parent.value].generation + 1
                  && Rooted(snapshots, a0, x)
      decreases remaining
    {
      var digest :| digest in remaining;
      remaining := remaining - {digest};
      if digest == a0 {
        continue;
      }
      var parent := snapshots[digest].parent;
      if parent.None? || parent.value !in snapshots
         || snapshots[digest].generation != snapshots[parent.value].generation + 1 {
        return Some(IncompleteLineage);
      }
      r := WalkToRoot(snapshots, a0, digest);
      if r.Some? {
        return;
      }
    }
    return None;
  }

  /** Follow the attempts from A0, one by one. */
  method FollowAttempts(digest: NoCallDigest, snapshots: map<Sha, Snapshot>, a0: Sha, attempts: seq<Attempt>)
    returns (r: Result<(Sha, set<Sha>), LineageError>)
    ensures r.Ok? <==> forall i | 0 <= i < |attempts| :: Continues(digest, snapshots, a0, attempts, i)
    ensures r.Ok? ==> r.value.0 == Current(a0, attempts) && r.value.1 == set x | x in Chain(a0, attempts)
  {
    var current, inventory := a0, {a0};
    for i := 0 to |attempts|
      invariant current == Current(a0, attempts[..i]) && inventory == set x | x in Chain(a0, attempts[..i])
      invariant forall j | 0 <= j < i :: Continues(digest, snapshots, a0, attempts, j)
    {
      assert attempts[..i + 1][..i] == attempts[..i];
      var attempt := attempts[i];
      if !AttemptValid(digest, attempt, i + 1) {
        assert !Continues(digest, snapshots, a0, attempts, i);
        return Err(BadAttempt);
      }
      if attempt.before != current {
        assert !Continues(digest, snapshots, a0, attempts, i);
        return Err(AttemptDrifted);
      }
      var next := attempt.candidate;
      if attempt.status.Accepted? {
        if next !in snapshots || current !in snapshots || snapshots[next].parent != Some(current)
           || snapshots[next].generation != snapshots[current].generation + 1
           || snapshots[next].evidence != attempt.evidence {
          assert !Continues(digest, snapshots, a0, attempts, i);
          return Err(NoChildSnapshot);
        }
        current := next;
        inventory := inventory + {next};
      } else if next != current {
        assert !Continues(digest, snapshots, a0, attempts, i);
        return Err(UnchangedMoved);
      }
    }
    assert attempts[..|attempts|] == attempts;
    return Ok((current, inventory));
  }

  /** The lineage part of `_checkpoint_snapshot`. */
  method VerifyLineage(digest: NoCallDigest, snapshots: map<Sha, Snapshot>, a0: Sha, candidate: Sha, attempts: seq<Attempt>)
    returns (r: Option<LineageError>)
    ensures r.None? <==> ChainHolds(digest, snapshots, a0, candidate, attempts)
  {
    if a0 !in snapshots || candidate !in snapshots {
      return Some(MissingSnapshot);
    }
    if snapshots[a0].generation != 0 || snapshots[a0].parent.Some? {
      return Some(BadRoot);
    }
    r := CheckParents(snapshots, a0);
    if r.Some? {
      if ChainHolds(digest, snapshots, a0, candidate, attempts) {
        ChainRootsEverySnapshot(digest, snapshots, a0, candidate, attempts);
      }
      return;
    }
    var followed := FollowAttempts(digest, snapshots, a0, attempts);
    if followed.Err? {
      return Some(followed.error);
    }
    if followed.value.0 != candidate {
      return Some(WrongCandidate);
    }
    if snapshots.Keys != followed.value.1 {
      return Some(WrongInventory);
    }
    return None;
  }

  // ---------------------------------------------------------------- what acceptance means

  /** Position `k` of the chain: generation `k`, child of position `k - 1`. */
  ghost predicate LinkHolds(snapshots: map<Sha, Snapshot>, chain: seq<Sha>, k: nat)
    requires k < |chain|
  {
    && chain[k] in snapshots && snapshots[chain[k]].generation == k
    && snapshots[chain[k]].parent == if k == 0 then None else Some(chain[k - 1])
  }

  lemma {:induction false} ChainIsLinked(digest: NoCallDigest, snapshots: map<Sha, Snapshot>, a0: Sha, attempts: seq<Attempt>)
    requires a0 in snapshots && snapshots[a0].generation == 0 && snapshots[a0].parent.None?
    requires forall i | 0 <= i < |attempts| :: Continues(digest, snapshots, a0, attempts, i)
    ensures forall k | 0 <= k < |Chain(a0, attempts)| :: LinkHolds(snapshots, Chain(a0, attempts), k)
  {
    if attempts == [] {
      assert LinkHolds(snapshots, [a0], 0);
    } else {
      var n := |attempts| - 1;
      var rest := attempts[..n];
      forall i | 0 <= i < n ensures Continues(digest, snapshots, a0, rest, i) {
        assert Continues(digest, snapshots, a0, attempts, i);
        assert rest[..i] == attempts[..i];
      }
      ChainIsLinked(digest, snapshots, a0, rest);
      assert Continues(digest, snapshots, a0, attempts, n);
      var chain, longer := Chain(a0, rest), Chain(a0, attempts);
      forall k | 0 <= k < |longer| ensures LinkHolds(snapshots, longer, k) {
        if k < |chain| {
          assert LinkHolds(snapshots, chain, k);
        } else {
          assert LinkHolds(snapshots, chain, |chain| - 1);
        }
      }
    }
  }

  lemma {:induction false} AncestorOnChain(snapshots: map<Sha, Snapshot>, chain: seq<Sha>, k: nat, n: nat)
    requires n <= k < |chain| && forall i | 0 <= i < |chain| :: LinkHolds(snapshots, chain, i)
    ensures Ancestor(snapshots, chain[k], n) == Some(chain[k - n])
  {
    if n > 0 {
      AncestorOnChain(snapshots, chain, k, n - 1);
      assert LinkHolds(snapshots, chain, k - n + 1);
    }
  }

  /** The attempt chain alone implies everything the walk over the snapshots checks. */
  lemma ChainRootsEverySnapshot(digest: NoCallDigest, snapshots: map<Sha, Snapshot>, a0: Sha, candidate: Sha, attempts: seq<Attempt>)
    requires ChainHolds(digest, snapshots, a0, candidate, attempts)
    ensures ParentsHold(snapshots, a0)
  {
    ChainIsLinked(digest, snapshots, a0, attempts);
    var chain := Chain(a0, attempts);
    forall x | x in snapshots && x != a0
      ensures snapshots[x].parent.Some? && snapshots[x].parent.value in snapshots
      ensures snapshots[x].generation == snapshots[snapshots[x].parent.value].generation + 1
      ensures Rooted(snapshots, a0, x)
    {
      var k :| 0 <= k < |chain| && chain[k] == x;
      assert LinkHolds(snapshots, chain, k);
      assert LinkHolds(snapshots, chain, k - 1);
      AncestorOnChain(snapshots, chain, k, k);
    }
  }

  function AcceptedCount(attempts: seq<Attempt>): nat {
    if attempts == [] then 0
    else AcceptedCount(attempts[..|attempts| - 1]) + if attempts[|attempts| - 1].status.Accepted? then 1 else 0
  }

  lemma {:induction false} ChainLength(a0: Sha, attempts: seq<Attempt>)
    ensures |Chain(a0, attempts)| == AcceptedCount(attempts) + 1
  {
    if attempts != [] {
      ChainLength(a0, attempts[..|attempts| - 1]);
    }
  }

  lemma {:induction false} SetOfDistinct(s: seq<Sha>)
    requires forall i, j | 0 <= i < j < |s| :: s[i] != s[j]
    ensures |set x | x in s| == |s|
  {
    if s != [] {
      var n := |s| - 1;
      SetOfDistinct(s[..n]);
      assert (set x | x in s) == (set x | x in s[..n]) + {s[n]};
    }
  }

  /**
   * Acceptance means one acyclic chain: the snapshots are exactly the chain
   * from A0 to the candidate, pairwise distinct, the k-th accepted attempt's
   * snapshot has generation k and the previous one as parent, and there is
   * one snapshot more than there are accepted attempts.
   */
  lemma AcceptedLineageIsOneChain(digest: NoCallDigest, snapshots: map<Sha, Snapshot>, a0: Sha, candidate: Sha, attempts: seq<Attempt>)
    requires ChainHolds(digest, snapshots, a0, candidate, attempts)
    ensures var chain := Chain(a0, attempts);
            && (forall k | 0 <= k < |chain| :: LinkHolds(snapshots, chain, k))
            && (forall i, j | 0 <= i < j < |chain| :: chain[i] != chain[j])
            && chain[0] == a0 && chain[|chain| - 1] == candidate
            && |snapshots| == |chain| == AcceptedCount(attempts) + 1
            && snapshots[candidate].generation == AcceptedCount(attempts)
  {
    var chain := Chain(a0, attempts);
    ChainIsLinked(digest, snapshots, a0, attempts);
    ChainLength(a0, attempts);
    forall i, j | 0 <= i < j < |chain| ensures chain[i] != chain[j] {
      assert LinkHolds(snapshots, chain, i) && LinkHolds(snapshots, chain, j);
    }
    SetOfDistinct(chain);
    assert |snapshots| == |snapshots.Keys|;
    assert LinkHolds(snapshots, chain, |chain| - 1);
  }
}
