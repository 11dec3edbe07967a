/** The audit log as a second copy of the tables: folding the events rebuilds what they record. */
module CampaignReplay {
  import opened Prelude
  import opened AuditChain
  import opened CampaignStore
  import opened CampaignInvariants

  /** A deadline as far as the log tells it; the event of a rejecting vote does not carry one. */
  datatype Deadline = Told(until: Option<int>) | Untold

  datatype Replica = Replica(
    id: string, ctype: CampaignType, target: string, fingerprint: string, state: State,
    revision: int, candidateRef: Option<string>, createdAt: int, updatedAt: int, deadline: Deadline)

  datatype Vote = Vote(campaignId: string, actor: string, decision: Decision, reason: string, createdAt: int)

  datatype View = View(replicas: seq<Replica>, votes: seq<Vote>)

  function ReplicaId(r: Replica): string { r.id }

  function FindReplica(replicas: seq<Replica>, id: string): (found: Option<nat>)
    ensures found.Some? ==> found.value < |replicas| && replicas[found.value].id == id
    ensures found.None? ==> forall i | 0 <= i < |replicas| :: replicas[i].id != id
  {
    var found := Find(replicas, ReplicaId, id);
    assert found.None? ==> forall i | 0 <= i < |replicas| :: ReplicaId(replicas[i]) != id;
    found
  }

  /** A replica after an event about its campaign. */
  function Amend(r: Replica, e: Content): Replica {
    var next := r.(revision := r.revision + 1, updatedAt := e.createdAt);
    match e.payload
    case CandidateAttached(candidateRef) => next.(state := CandidateReady, candidateRef := Some(candidateRef))
    case CampaignTransitioned(_, toState, _, cooldownUntil) => next.(state := toState, deadline := Told(cooldownUntil))
    case ApprovalRecorded(decision, _, resultingState) =>
      next.(state := resultingState, deadline := if decision == Reject then Untold else Told(None))
    case _ => r
  }

  function Rewrite(replicas: seq<Replica>, e: Content): seq<Replica> {
    var found := FindReplica(replicas, e.campaignId);
    if found.None? then replicas else replicas[found.value := Amend(replicas[found.value], e)]
  }

  /** What one event does to the rebuilt view. */
  function Apply(view: View, e: Content): View {
    match e.payload
    case CampaignReused(_, _, _) => view
    case CampaignCreated(ctype, target, fingerprint, state) =>
      view.(replicas := view.replicas + [Replica(e.campaignId, ctype, target, fingerprint, state, 0, None,
                                                 e.createdAt, e.createdAt, Told(None))])
    case ApprovalRecorded(decision, reason, _) =>
      View(Rewrite(view.replicas, e), view.votes + [Vote(e.campaignId, e.actor, decision, reason, e.createdAt)])
    case _ => view.(replicas := Rewrite(view.replicas, e))
  }

  function Replay(log: Log): View {
    if log == [] then View([], [])
    else Apply(Replay(log[..|log| - 1]), log[|log| - 1].content)
  }

  ghost predicate Mirrors(r: Replica, row: Campaign, approvals: seq<Approval>) {
    && r.id == row.id && r.ctype == row.ctype && r.target == row.target && r.fingerprint == row.fingerprint
    && r.state == row.state && r.revision == row.revision && r.candidateRef == row.candidateRef
    && r.createdAt == row.createdAt && r.updatedAt == row.updatedAt
    && (r.deadline.Told? ==> r.deadline.until == row.cooldownUntil)
    && (r.deadline.Untold? <==> CountDecisions(approvals, row.id, Reject) > 0)
  }

  ghost predicate Recasts(v: Vote, a: Approval) {
    v == Vote(a.campaignId, a.actor, a.decision, a.reason, a.createdAt)
  }

  ghost predicate Rebuilds(view: View, s: Store) {
    && |view.replicas| == |s.campaigns| && |view.votes| == |s.approvals|
    && (forall i | 0 <= i < |s.campaigns| :: Mirrors(view.replicas[i], s.campaigns[i], s.approvals))
    && (forall i | 0 <= i < |s.approvals| :: Recasts(view.votes[i], s.approvals[i]))
  }

  /** The event of a write to an existing campaign, as far as the fold reads it. */
  ghost predicate Describes(e: Content, c: Call, after: Campaign) {
    && e.actor == c.actor && e.createdAt == c.now && e.campaignId == after.id
    && match c.request
       case Reserve(_, _, _, _, _, _, _, _, _) => false
       case Attach(_, candidateRef, _, _) => e.payload == CandidateAttached(candidateRef)
       case Transition(_, _, _, _, _) =>
         && e.payload.CampaignTransitioned? && e.payload.toState == after.state
         && e.payload.cooldownUntil == after.cooldownUntil
       case RecordApproval(_, _, decision, reason, _, _) => e.payload == ApprovalRecorded(decision, reason, after.state)
  }

  lemma ReplayOfAppend(hash: ContentHash, log: Log, content: Content)
    ensures Replay(Append(hash, log, content)) == Apply(Replay(log), content)
  {
    assert Append(hash, log, content)[..|log|] == log;
  }

  /** The event a committed call appended. */
  function NewContent(hash: ContentHash, s: Store, c: Call): Content
    requires Transact(hash, s, c).Ok?
  {
    var events := Step(hash, s, c).events;
    events[|events| - 1].content
  }

  lemma WriteIsDescribed(hash: ContentHash, s: Store, c: Call)
    requires Transact(hash, s, c).Ok? && !c.request.Reserve?
    ensures exists i: nat :: Rewrote(s, c, Step(hash, s, c), i) && Describes(NewContent(hash, s, c), c, Step(hash, s, c).campaigns[i])
  {
    EffectOf(hash, s, c);
    var t := Step(hash, s, c);
    var i: nat :| Rewrote(s, c, t, i);
    assert Describes(NewContent(hash, s, c), c, t.campaigns[i]);
  }

  lemma StepKeepsReplay(hash: ContentHash, s: Store, c: Call)
    requires Sound(hash, s) && Rebuilds(Replay(s.events), s)
    ensures Rebuilds(Replay(Step(hash, s, c).events), Step(hash, s, c))
  {
    if Transact(hash, s, c).Ok? {
      var t := Step(hash, s, c);
      EffectOf(hash, s, c);
      var content :| t.events == Append(hash, s.events, content) && !EventIdUsed(s.events, content.eventId) && content.eventId == c.eventId;
      ReplayOfAppend(hash, s.events, content);
      if c.request.Reserve? {
        ReserveReplays(hash, s, c, content);
      } else {
        WriteIsDescribed(hash, s, c);
        var i: nat :| Rewrote(s, c, t, i) && Describes(NewContent(hash, s, c), c, t.campaigns[i]);
        RewriteReplays(hash, s, c, t, i, content);
      }
    }
  }

  lemma ReserveReplays(hash: ContentHash, s: Store, c: Call, e: Content)
    requires Sound(hash, s) && Rebuilds(Replay(s.events), s) && Transact(hash, s, c).Ok? && c.request.Reserve?
    requires Step(hash, s, c).events != [] && e == Step(hash, s, c).events[|Step(hash, s, c).events| - 1].content
    ensures Rebuilds(Apply(Replay(s.events), e), Step(hash, s, c))
  {
    var t := Step(hash, s, c);
    if FindOpen(s.campaigns, c.request.target).None? {
      EffectOf(hash, s, c);
      assert Inserted(s, c, t);
      forall k | 0 <= k < |s.approvals| ensures s.approvals[k].campaignId != c.request.newId {
        assert HasRow(s.campaigns, s.approvals[k].campaignId);
      }
      CountOfStranger(s.approvals, c.request.newId, Reject);
      var view := Apply(Replay(s.events), e);
      forall i | 0 <= i < |t.campaigns| ensures Mirrors(view.replicas[i], t.campaigns[i], t.approvals) {
        assert i < |s.campaigns| ==> Mirrors(Replay(s.events).replicas[i], s.campaigns[i], s.approvals);
      }
    }
  }

  lemma SameIndex(view: View, s: Store, id: string)
    requires KeysUnique(s.campaigns) && Rebuilds(view, s)
    ensures FindReplica(view.replicas, id) == FindById(s.campaigns, id)
  {
    assert forall i | 0 <= i < |s.campaigns| :: Mirrors(view.replicas[i], s.campaigns[i], s.approvals);
  }

  lemma RewrittenRowMirrors(r: Replica, s: Store, c: Call, t: Store, i: nat, e: Content)
    requires Rewrote(s, c, t, i) && RowSound(s.campaigns[i], s.approvals)
    requires Mirrors(r, s.campaigns[i], s.approvals) && Describes(e, c, t.campaigns[i])
    ensures Mirrors(Amend(r, e), t.campaigns[i], t.approvals)
  {
    if c.request.RecordApproval? {
      CountOverAppend(s.approvals, t.approvals[|s.approvals|], s.campaigns[i].id, Reject);
    }
  }

  lemma OtherRowMirrors(r: Replica, s: Store, c: Call, t: Store, i: nat, j: nat)
    requires Rewrote(s, c, t, i) && KeysUnique(s.campaigns) && j < |s.campaigns| && j != i
    requires Mirrors(r, s.campaigns[j], s.approvals)
    ensures Mirrors(r, t.campaigns[j], t.approvals)
  {
    assert t.campaigns[j] == s.campaigns[j] && s.campaigns[j].id != s.campaigns[i].id;
    if c.request.RecordApproval? {
      CountOverAppend(s.approvals, t.approvals[|s.approvals|], s.campaigns[j].id, Reject);
    }
  }

  lemma VotesReplay(before: View, s: Store, c: Call, t: Store, i: nat, e: Content)
    requires Rebuilds(before, s) && Rewrote(s, c, t, i) && Describes(e, c, t.campaigns[i])
    ensures |Apply(before, e).votes| == |t.approvals|
    ensures forall k | 0 <= k < |t.approvals| :: Recasts(Apply(before, e).votes[k], t.approvals[k])
  {
    forall k | 0 <= k < |t.approvals| ensures Recasts(Apply(before, e).votes[k], t.approvals[k]) {
      assert k < |s.approvals| ==> Recasts(before.votes[k], s.approvals[k]);
    }
  }

  lemma RewriteReplays(hash: ContentHash, s: Store, c: Call, t: Store, i: nat, e: Content)
    requires Sound(hash, s) && Rebuilds(Replay(s.events), s) && Rewrote(s, c, t, i) && Describes(e, c, t.campaigns[i])
    ensures Rebuilds(Apply(Replay(s.events), e), t)
  {
    var before := Replay(s.events);
    var view := Apply(before, e);
    SameIndex(before, s, s.campaigns[i].id);
    assert FindById(s.campaigns, s.campaigns[i].id) == Some(i);
    assert view.replicas == before.replicas[i := Amend(before.replicas[i], e)];
    forall j | 0 <= j < |t.campaigns| ensures Mirrors(view.replicas[j], t.campaigns[j], t.approvals) {
      assert Mirrors(before.replicas[j], s.campaigns[j], s.approvals);
      if j != i {
        OtherRowMirrors(before.replicas[j], s, c, t, i, j);
      } else {
        assert RowSound(s.campaigns[i], s.approvals);
        RewrittenRowMirrors(before.replicas[i], s, c, t, i, e);
      }
    }
    VotesReplay(before, s, c, t, i, e);
  }

  /**
   * Replay refinement: in every reachable store, folding the audit log gives
   * back each campaign's identity, state, revision, candidate and times, and
   * every vote; a deadline is recovered unless the campaign was voted down.
   */
  lemma {:induction false} LogRebuildsTables(hash: ContentHash, calls: seq<Call>)
    ensures var s := Run(hash, EMPTY, calls);
            Rebuilds(Replay(s.events), s)
  {
    if calls != [] {
      var earlier := calls[..|calls| - 1];
      LogRebuildsTables(hash, earlier);
      ReachableIsSound(hash, earlier);
      StepKeepsReplay(hash, Run(hash, EMPTY, earlier), calls[|calls| - 1]);
    }
  }

  function WithCooldown(c: Call, seconds: int): Call
    requires c.request.RecordApproval?
  {
    var q := c.request;
    c.(request := RecordApproval(q.id, q.approvalId, q.decision, q.reason, q.expectedRevision, seconds))
  }

  /**
   * A rejecting vote leaves no trace of its cooldown: two votes that differ
   * only in the cooldown they set, or in whether they set one, write the same
   * log but different tables.
   */
  lemma VotedCooldownLeavesNoTrace(hash: ContentHash, s: Store, c: Call, seconds: int)
    requires c.request.RecordApproval? && c.request.decision == Reject && Transact(hash, s, c).Ok?
    requires seconds != c.request.cooldownSeconds
    ensures var t, u := Step(hash, s, c), Step(hash, s, WithCooldown(c, seconds));
            t.events == u.events && t.approvals == u.approvals && t.campaigns != u.campaigns
  {
    var i := Fetch(s, c.request.id, c.request.expectedRevision).value;
    var t := Step(hash, s, c);
    var rows := s.campaigns[i := Move(s.campaigns[i], Rejected, CooldownAfter(Rejected, seconds, c.now), c.now)];
    assert forall a | 0 <= a < |rows| :: rows[a].target == t.campaigns[a].target && rows[a].state == t.campaigns[a].state;
    assert OpenTargetsUnique(rows);
    var u := Step(hash, s, WithCooldown(c, seconds));
    assert t.campaigns[i].cooldownUntil == CooldownAfter(Rejected, c.request.cooldownSeconds, c.now);
    assert u.campaigns[i].cooldownUntil == CooldownAfter(Rejected, seconds, c.now);
  }
}
