/** Revisions as write counters: no lost update, a bounded lifetime, an index that never fires. */
module CampaignLifetime {
  import opened Prelude
  import opened AuditChain
  import opened CampaignStore
  import opened CampaignInvariants

  function RequestTarget(q: Request): Option<(string, int)> {
    match q
    case Reserve(_, _, _, _, _, _, _, _, _) => None
    case Attach(id, _, _, expected) => Some((id, expected))
    case Transition(id, _, expected, _, _) => Some((id, expected))
    case RecordApproval(id, _, _, _, expected, _) => Some((id, expected))
  }

  /** Call `c` commits a write to campaign `id`. */
  predicate WritesTo(hash: ContentHash, s: Store, c: Call, id: string) {
    var target := RequestTarget(c.request);
    target.Some? && target.value.0 == id && Transact(hash, s, c).Ok?
  }

  function WriteCount(hash: ContentHash, calls: seq<Call>, id: string): nat {
    if calls == [] then 0
    else
      var earlier := calls[..|calls| - 1];
      WriteCount(hash, earlier, id)
      + if WritesTo(hash, Run(hash, EMPTY, earlier), calls[|calls| - 1], id) then 1 else 0
  }

  /** In every reachable store a campaign's revision is the number of writes committed to it so far. */
  lemma {:induction false} RevisionCountsWrites(hash: ContentHash, calls: seq<Call>, id: string)
    ensures WriteCount(hash, calls, id) == RevisionIn(Run(hash, EMPTY, calls), id)
  {
    if calls != [] {
      var earlier, c := calls[..|calls| - 1], calls[|calls| - 1];
      RevisionCountsWrites(hash, earlier, id);
      ReachableIsSound(hash, earlier);
      ReachableIsSound(hash, calls);
      if Transact(hash, Run(hash, EMPTY, earlier), c).Ok? {
        RevisionAfter(hash, Run(hash, EMPTY, earlier), c, id);
      }
    }
  }

  /** Revision of a campaign, 0 before it exists. */
  function RevisionIn(s: Store, id: string): int {
    var found := FindById(s.campaigns, id);
    if found.Some? then s.campaigns[found.value].revision else 0
  }

  lemma InsertKeepsRevisions(hash: ContentHash, s: Store, c: Call, t: Store, id: string)
    requires Sound(hash, t) && Inserted(s, c, t)
    ensures RevisionIn(t, id) == RevisionIn(s, id)
  {
    assert forall j | 0 <= j < |s.campaigns| :: t.campaigns[j] == s.campaigns[j];
  }

  lemma RewriteRaisesOneRevision(hash: ContentHash, s: Store, c: Call, t: Store, i: nat, id: string)
    requires Sound(hash, s) && Sound(hash, t) && Rewrote(s, c, t, i)
    ensures RevisionIn(t, id) == RevisionIn(s, id) + if s.campaigns[i].id == id then 1 else 0
  {
    var rows, row := s.campaigns, t.campaigns[i];
    assert row.id == rows[i].id && row.revision == rows[i].revision + 1 && t.campaigns == rows[i := row];
    RevisionsAfterRewrite(rows, row, i, id);
  }

  lemma RevisionsAfterRewrite(rows: seq<Campaign>, row: Campaign, i: nat, id: string)
    requires KeysUnique(rows) && i < |rows| && row.id == rows[i].id && row.revision == rows[i].revision + 1
    ensures var found, after := FindById(rows, id), FindById(rows[i := row], id);
            && found == after
            && (found.Some? ==> rows[i := row][found.value].revision
                                == rows[found.value].revision + if rows[i].id == id then 1 else 0)
            && (found.None? ==> rows[i].id != id)
  {
    assert forall j | 0 <= j < |rows| :: rows[i := row][j].id == rows[j].id;
  }

  /** A committed call raises the revision of the campaign it writes by one and of no other. */
  lemma RevisionAfter(hash: ContentHash, s: Store, c: Call, id: string)
    requires Sound(hash, s) && Sound(hash, Step(hash, s, c)) && Transact(hash, s, c).Ok?
    ensures RevisionIn(Step(hash, s, c), id) == RevisionIn(s, id) + if WritesTo(hash, s, c, id) then 1 else 0
  {
    var t := Step(hash, s, c);
    EffectOf(hash, s, c);
    if Inserted(s, c, t) {
      InsertKeepsRevisions(hash, s, c, t, id);
    } else if !Reused(s, c, t) {
      var i: nat :| Rewrote(s, c, t, i);
      RewriteRaisesOneRevision(hash, s, c, t, i, id);
    }
  }

  lemma {:induction false} WriteCountGrows(hash: ContentHash, calls: seq<Call>, n: nat, id: string)
    requires n <= |calls|
    ensures WriteCount(hash, calls[..n], id) <= WriteCount(hash, calls, id)
  {
    if n < |calls| {
      assert calls[..|calls| - 1][..n] == calls[..n];
      WriteCountGrows(hash, calls[..|calls| - 1], n, id);
    } else {
      assert calls[..n] == calls;
    }
  }

  /**
   * No lost update: under any interleaving, the same (campaign, expected
   * revision) pair is consumed by at most one committed write.
   */
  lemma RevisionConsumedOnce(hash: ContentHash, calls: seq<Call>, i: nat, j: nat, id: string)
    requires i < j < |calls|
    requires WritesTo(hash, Run(hash, EMPTY, calls[..i]), calls[i], id)
    requires WritesTo(hash, Run(hash, EMPTY, calls[..j]), calls[j], id)
    ensures RequestTarget(calls[i].request) != RequestTarget(calls[j].request)
  {
    RevisionCountsWrites(hash, calls[..i], id);
    RevisionCountsWrites(hash, calls[..j], id);
    assert calls[..i + 1][..i] == calls[..i];
    assert calls[..j][..i + 1] == calls[..i + 1];
    WriteCountGrows(hash, calls[..j], i + 1, id);
    ExpectedIsFound(hash, Run(hash, EMPTY, calls[..i]), calls[i], id);
    ExpectedIsFound(hash, Run(hash, EMPTY, calls[..j]), calls[j], id);
  }

  lemma ExpectedIsFound(hash: ContentHash, s: Store, c: Call, id: string)
    requires WritesTo(hash, s, c, id)
    ensures RevisionIn(s, id) == RequestTarget(c.request).value.1
  {
  }

  /** Every campaign stops: a run never commits more than required_approvals + 5 writes to it. */
  lemma LifetimeIsBounded(hash: ContentHash, calls: seq<Call>, i: nat)
    requires i < |Run(hash, EMPTY, calls).campaigns|
    ensures var row := Run(hash, EMPTY, calls).campaigns[i];
            WriteCount(hash, calls, row.id) <= row.requiredApprovals + 5
  {
    var s := Run(hash, EMPTY, calls);
    ReachableIsSound(hash, calls);
    RevisionCountsWrites(hash, calls, s.campaigns[i].id);
    assert RowSound(s.campaigns[i], s.approvals);
  }

  /** Rewriting an open row without moving it to another target never breaks the index. */
  lemma WriteFitsIndex(hash: ContentHash, s: Store, i: nat, row: Campaign, approvals: seq<Approval>, content: Content)
    requires OpenTargetsUnique(s.campaigns) && i < |s.campaigns|
    requires IsOpen(s.campaigns[i].state) && row.target == s.campaigns[i].target
    ensures Write(hash, s, i, row, approvals, content) != Err(OpenTargetIndex)
  {
    assert forall j | 0 <= j < |s.campaigns| :: s.campaigns[i := row][j].target == s.campaigns[j].target;
  }

  lemma ReserveFitsIndex(hash: ContentHash, s: Store, c: Call)
    requires OpenTargetsUnique(s.campaigns) && c.request.Reserve?
    ensures TransactReserve(hash, s, c) != Err(OpenTargetIndex)
  {
    if FindOpen(s.campaigns, c.request.target).None? {
      assert OpenTargetsUnique(s.campaigns + [NewCampaign(c.request, c.now)]);
    }
  }

  lemma AttachFitsIndex(hash: ContentHash, s: Store, c: Call)
    requires OpenTargetsUnique(s.campaigns) && c.request.Attach?
    ensures TransactAttach(hash, s, c) != Err(OpenTargetIndex)
  {
    var q := c.request;
    var fetched := Fetch(s, q.id, q.expectedRevision);
    if fetched.Ok? && CandidateReady in LegalTransitions(s.campaigns[fetched.value].state) {
      var record := s.campaigns[fetched.value];
      var row := record.(candidateRef := Some(q.candidateRef), artifact := Some(q.artifact), state := CandidateReady,
                         updatedAt := c.now, revision := record.revision + 1);
      WriteFitsIndex(hash, s, fetched.value, row, s.approvals,
                     Content(c.eventId, q.id, CandidateAttached(q.candidateRef), c.actor, c.now));
    }
  }

  lemma TransitionFitsIndex(hash: ContentHash, s: Store, c: Call)
    requires OpenTargetsUnique(s.campaigns) && c.request.Transition?
    ensures TransactTransition(hash, s, c) != Err(OpenTargetIndex)
  {
    var q := c.request;
    var fetched := Fetch(s, q.id, q.expectedRevision);
    if fetched.Ok? && q.toState in LegalTransitions(s.campaigns[fetched.value].state) {
      var record := s.campaigns[fetched.value];
      var until := CooldownAfter(q.toState, q.cooldownSeconds, c.now);
      WriteFitsIndex(hash, s, fetched.value, Move(record, q.toState, until, c.now), s.approvals,
                     Content(c.eventId, q.id, CampaignTransitioned(record.state, q.toState, q.reason, until), c.actor, c.now));
    }
  }

  lemma ApprovalFitsIndex(hash: ContentHash, s: Store, c: Call)
    requires OpenTargetsUnique(s.campaigns) && c.request.RecordApproval?
    ensures TransactApproval(hash, s, c) != Err(OpenTargetIndex)
  {
    var q := c.request;
    var fetched := Fetch(s, q.id, q.expectedRevision);
    if fetched.Ok? && s.campaigns[fetched.value].state == ApprovalPending {
      var record := s.campaigns[fetched.value];
      var approvals := s.approvals + [Approval(q.approvalId, q.id, c.actor, q.decision, q.reason, c.now)];
      var next := StateAfterDecision(record, approvals, q.decision);
      WriteFitsIndex(hash, s, fetched.value, Move(record, next, CooldownAfter(next, q.cooldownSeconds, c.now), c.now), approvals,
                     Content(c.eventId, q.id, ApprovalRecorded(q.decision, q.reason, next), c.actor, c.now));
    }
  }

  /** The unique index over open targets is redundant: no reachable store lets it reject a write. */
  lemma OpenTargetIndexNeverFires(hash: ContentHash, calls: seq<Call>, c: Call)
    ensures Transact(hash, Run(hash, EMPTY, calls), c) != Err(OpenTargetIndex)
  {
    var s := Run(hash, EMPTY, calls);
    ReachableIsSound(hash, calls);
    match c.request
    case Reserve(_, _, _, _, _, _, _, _, _) => ReserveFitsIndex(hash, s, c);
    case Attach(_, _, _, _) => AttachFitsIndex(hash, s, c);
    case Transition(_, _, _, _, _) => TransitionFitsIndex(hash, s, c);
    case RecordApproval(_, _, _, _, _, _) => ApprovalFitsIndex(hash, s, c);
  }

  /** A closed campaign is final: no later call changes its row. */
  lemma ClosedRowsStay(hash: ContentHash, s: Store, c: Call, i: nat)
    requires i < |s.campaigns| && !IsOpen(s.campaigns[i].state)
    ensures i < |Step(hash, s, c).campaigns| && Step(hash, s, c).campaigns[i] == s.campaigns[i]
  {
    if Transact(hash, s, c).Ok? {
      EffectOf(hash, s, c);
    }
  }
}
