/**
 * The hash-chained audit log that the campaign store, the benchmark evidence
 * registry and the comparison package all keep and all verify.
 *
 * The digest is a parameter: nothing here depends on SHA-256, and injectivity
 * is assumed only by the lemmas about tampering.
 */
module AuditChain {
  import opened Prelude

  type Digest = string

  const GENESIS: Digest := "0000000000000000000000000000000000000000000000000000000000000000"

  /** Digest of one event: its sequence number, its content and the previous digest. */
  type EventHash<!C> = (int, C, Digest) -> Digest

  datatype Event<+C> = Event(sequence: int, content: C, previousHash: Digest, eventHash: Digest)

  datatype Checkpoint = Checkpoint(eventCount: nat, headHash: Digest)

  datatype Verdict = Verified | ChainBroken | ContentModified | CheckpointMismatch

  function Head<C>(log: seq<Event<C>>): Digest {
    if log == [] then GENESIS else log[|log| - 1].eventHash
  }

  function CheckpointOf<C>(log: seq<Event<C>>): Checkpoint {
    Checkpoint(|log|, Head(log))
  }

  function LastSequence<C>(log: seq<Event<C>>): int {
    if log == [] then 0 else log[|log| - 1].sequence
  }

  /** The log after recording `content`; the number continues the last stored one. */
  function Append<C>(hash: EventHash<C>, log: seq<Event<C>>, content: C): seq<Event<C>> {
    var sequence := LastSequence(log) + 1;
    log + [Event(sequence, content, Head(log), hash(sequence, content, Head(log)))]
  }

  ghost predicate Linked<C>(hash: EventHash<C>, log: seq<Event<C>>, i: nat)
    requires i < |log|
  {
    && log[i].sequence == i + 1
    && log[i].previousHash == Head(log[..i])
    && log[i].eventHash == hash(log[i].sequence, log[i].content, log[i].previousHash)
  }

  /** Every event is numbered, chained to its predecessor and carries its own digest. */
  ghost predicate Intact<C>(hash: EventHash<C>, log: seq<Event<C>>) {
    forall i | 0 <= i < |log| :: Linked(hash, log, i)
  }

  ghost predicate Injective<C(!new)>(hash: EventHash<C>) {
    forall s1, c1, p1, s2, c2, p2 | hash(s1, c1, p1) == hash(s2, c2, p2) :: s1 == s2 && c1 == c2 && p1 == p2
  }

  ghost predicate Accepted<C>(hash: EventHash<C>, log: seq<Event<C>>, checkpoint: Option<Checkpoint>) {
    Intact(hash, log) && (checkpoint.Some? ==> checkpoint.value == CheckpointOf(log))
  }

  /** A log of `n` events whose identifiers are as long as their positions, and therefore distinct. */
  ghost predicate Numbered<C>(log: seq<Event<C>>, eventId: C -> string, n: nat) {
    |log| == n && forall i | 0 <= i < n :: |eventId(log[i].content)| == i
  }

  /** `verify_audit`: one pass over the log that carries the previous digest. */
  method VerifyAudit<C>(hash: EventHash<C>, log: seq<Event<C>>, checkpoint: Option<Checkpoint>)
    returns (verdict: Verdict)
    ensures verdict == Verified <==> Accepted(hash, log, checkpoint)
    ensures verdict == CheckpointMismatch <==> Intact(hash, log) && !Accepted(hash, log, checkpoint)
    ensures verdict == ContentModified ==>
              exists i | 0 <= i < |log| ::
                && Intact(hash, log[..i]) && log[i].sequence == i + 1 && log[i].previousHash == Head(log[..i])
                && log[i].eventHash != hash(log[i].sequence, log[i].content, log[i].previousHash)
    ensures verdict == ChainBroken ==>
              exists i | 0 <= i < |log| ::
                Intact(hash, log[..i]) && (log[i].sequence != i + 1 || log[i].previousHash != Head(log[..i]))
  {
    var previous := GENESIS;
    for i := 0 to |log|
      invariant previous == Head(log[..i])
      invariant forall j | 0 <= j < i :: Linked(hash, log, j)
    {
      var event := log[i];
      PrefixLinks(hash, log, i);
      if event.sequence != i + 1 || event.previousHash != previous {
        assert !Linked(hash, log, i);
        return ChainBroken;
      }
      if event.eventHash != hash(event.sequence, event.content, event.previousHash) {
        assert !Linked(hash, log, i);
        return ContentModified;
      }
      previous := event.eventHash;
    }
    assert log[..|log|] == log;
    if checkpoint.Some? && checkpoint.value != Checkpoint(|log|, previous) {
      return CheckpointMismatch;
    }
    return Verified;
  }

  lemma PrefixLinks<C>(hash: EventHash<C>, log: seq<Event<C>>, n: nat)
    requires n <= |log|
    requires forall j | 0 <= j < n :: Linked(hash, log, j)
    ensures Intact(hash, log[..n])
  {
    forall j | 0 <= j < n ensures Linked(hash, log[..n], j) {
      assert Linked(hash, log, j);
      assert log[..n][..j] == log[..j];
    }
  }

  /** Appending keeps the chain whole and only ever adds to the history. */
  lemma AppendKeepsIntact<C>(hash: EventHash<C>, log: seq<Event<C>>, content: C)
    requires Intact(hash, log)
    ensures Intact(hash, Append(hash, log, content))
    ensures Append(hash, log, content)[..|log|] == log
    ensures LastSequence(log) == |log|
  {
    var longer := Append(hash, log, content);
    assert log != [] ==> Linked(hash, log, |log| - 1);
    assert longer[..|log|] == log;
    forall i | 0 <= i < |longer| ensures Linked(hash, longer, i) {
      if i < |log| {
        assert Linked(hash, log, i);
        assert longer[..i] == log[..i];
      }
    }
  }

  /**
   * An intact history that ends in some event of another intact history is a
   * prefix of it: no edit, insertion, reorder or removal before the last
   * retained event survives verification, even without a checkpoint.
   */
  lemma {:induction false} RetainedHistoryIsPrefix<C(!new)>(hash: EventHash<C>, kept: seq<Event<C>>, log: seq<Event<C>>, k: nat)
    requires Injective(hash)
    requires Intact(hash, kept) && Intact(hash, log)
    requires kept != [] && k < |log| && Head(kept) == log[k].eventHash
    ensures kept == log[..k + 1]
  {
    var last := |kept| - 1;
    assert Linked(hash, kept, last) && Linked(hash, log, k);
    assert last == k && kept[last] == log[k];
    assert kept == kept[..last] + [kept[last]];
    assert log[..k + 1] == log[..k] + [log[k]];
    if last > 0 {
      PrefixLinks(hash, kept, last);
      assert Linked(hash, kept, last - 1);
      RetainedHistoryIsPrefix(hash, kept[..last], log, k - 1);
    }
  }

  /** A checkpoint pins the whole log: the only log accepted against it is the one it was taken from. */
  lemma CheckpointPinsLog<C(!new)>(hash: EventHash<C>, log: seq<Event<C>>, other: seq<Event<C>>)
    requires Injective(hash) && Intact(hash, log)
    ensures Accepted(hash, other, Some(CheckpointOf(log))) <==> other == log
  {
    if Accepted(hash, other, Some(CheckpointOf(log))) && other != [] {
      RetainedHistoryIsPrefix(hash, other, log, |log| - 1);
      assert log[..|log|] == log;
    }
  }

  /**
   * Without a checkpoint the chain alone accepts exactly the prefixes among
   * the logs that retain events of `log`: a truncated tail is invisible to it.
   */
  lemma ChainAloneAcceptsPrefixes<C(!new)>(hash: EventHash<C>, log: seq<Event<C>>, kept: seq<Event<C>>)
    requires Injective(hash) && Intact(hash, log)
    requires kept == [] || exists k | 0 <= k < |log| :: kept[|kept| - 1].eventHash == log[k].eventHash
    ensures Accepted(hash, kept, None) <==> kept <= log
  {
    if Accepted(hash, kept, None) && kept != [] {
      var k :| 0 <= k < |log| && kept[|kept| - 1].eventHash == log[k].eventHash;
      RetainedHistoryIsPrefix(hash, kept, log, k);
    }
    if kept <= log {
      PrefixLinks(hash, log, |kept|);
      assert kept == log[..|kept|];
    }
  }
}
