/** What an authorization means, exactly when the store guarantees it, and that the activation gate agrees. */
module CampaignApprovals {
  import opened Prelude
  import opened AuditChain
  import opened CampaignStore
  import opened CampaignInvariants

  /** The actors whose approval of a campaign is on record. */
  function Approvers(approvals: seq<Approval>, id: string): set<string> {
    set k | 0 <= k < |approvals| && approvals[k].campaignId == id && approvals[k].decision == Approve :: approvals[k].actor
  }

  lemma ApproversOfAppend(approvals: seq<Approval>, a: Approval, id: string)
    ensures Approvers(approvals + [a], id) ==
            Approvers(approvals, id) + if a.campaignId == id && a.decision == Approve then {a.actor} else {}
  {
    var longer := approvals + [a];
    assert longer[|approvals|] == a;
    forall x | x in Approvers(approvals, id) ensures x in Approvers(longer, id) {
      var k :| 0 <= k < |approvals| && approvals[k].campaignId == id && approvals[k].decision == Approve && approvals[k].actor == x;
      assert longer[k].actor == x;
    }
  }

  lemma NewVoterIsNew(approvals: seq<Approval>, id: string)
    requires approvals != [] && DecisionsUnique(approvals) && approvals[|approvals| - 1].campaignId == id
    ensures approvals[|approvals| - 1].actor !in Approvers(approvals[..|approvals| - 1], id)
  {
  }

  /** One decision per actor makes counting rows and counting people the same thing. */
  lemma {:induction false} CountIsHeadcount(approvals: seq<Approval>, id: string)
    requires DecisionsUnique(approvals)
    ensures |Approvers(approvals, id)| == CountDecisions(approvals, id, Approve)
  {
    if approvals != [] {
      var n := |approvals| - 1;
      CountIsHeadcount(approvals[..n], id);
      ApproversOfAppend(approvals[..n], approvals[n], id);
      assert approvals == approvals[..n] + [approvals[n]];
      if approvals[n].campaignId == id {
        NewVoterIsNew(approvals, id);
      }
    }
  }

  /** A call that does not move a campaign straight to AUTHORIZED, past the approval count. */
  predicate Governed(c: Call) {
    !(c.request.Transition? && c.request.toState == Authorized)
  }

  ghost predicate Ratified(row: Campaign, approvals: seq<Approval>) {
    row.state.Authorized? || row.state.Completed? ==> CountDecisions(approvals, row.id, Approve) == row.requiredApprovals
  }

  ghost predicate AllRatified(s: Store) {
    forall i | 0 <= i < |s.campaigns| :: Ratified(s.campaigns[i], s.approvals)
  }

  /**
   * The transition table alone does not protect the approval count. A
   * committed call keeps "authorized means fully approved" if and only if it
   * is not the direct transition to AUTHORIZED.
   */
  lemma RatifiedExactlyWhenGoverned(hash: ContentHash, s: Store, c: Call)
    requires Sound(hash, s) && AllRatified(s) && Transact(hash, s, c).Ok?
    ensures AllRatified(Step(hash, s, c)) <==> Governed(c)
  {
    var t := Step(hash, s, c);
    EffectOf(hash, s, c);
    if Inserted(s, c, t) {
      assert forall j | 0 <= j < |s.campaigns| :: t.campaigns[j] == s.campaigns[j];
      assert forall j | 0 <= j < |s.campaigns| :: Ratified(s.campaigns[j], s.approvals);
    } else if Reused(s, c, t) {
    } else {
      var i: nat :| Rewrote(s, c, t, i);
      RatifiedAfterRewrite(hash, s, c, t, i);
    }
  }

  lemma OtherStaysRatified(row: Campaign, approvals: seq<Approval>, a: Approval)
    requires Ratified(row, approvals) && a.campaignId != row.id
    ensures Ratified(row, approvals + [a])
  {
    CountOverAppend(approvals, a, row.id, Approve);
  }

  /** The rewritten row is ratified unless it was moved to AUTHORIZED directly. */
  lemma RewrittenRowRatified(s: Store, c: Call, t: Store, i: nat)
    requires Rewrote(s, c, t, i) && RowSound(s.campaigns[i], s.approvals) && Ratified(s.campaigns[i], s.approvals)
    ensures Ratified(t.campaigns[i], t.approvals) <==> Governed(c)
  {
    if c.request.RecordApproval? {
      CountOverAppend(s.approvals, t.approvals[|s.approvals|], s.campaigns[i].id, Approve);
    }
  }

  lemma RatifiedAfterRewrite(hash: ContentHash, s: Store, c: Call, t: Store, i: nat)
    requires Sound(hash, s) && AllRatified(s) && Rewrote(s, c, t, i)
    ensures AllRatified(t) <==> Governed(c)
  {
    assert RowSound(s.campaigns[i], s.approvals);
    forall j | 0 <= j < |t.campaigns| && j != i ensures Ratified(t.campaigns[j], t.approvals) {
      assert t.campaigns[j] == s.campaigns[j] && s.campaigns[j].id != s.campaigns[i].id;
      assert Ratified(s.campaigns[j], s.approvals);
      if c.request.RecordApproval? {
        OtherStaysRatified(s.campaigns[j], s.approvals, t.approvals[|s.approvals|]);
      }
    }
    assert Ratified(s.campaigns[i], s.approvals);
    RewrittenRowRatified(s, c, t, i);
    assert AllRatified(t) <==> Ratified(t.campaigns[i], t.approvals);
  }

  lemma {:induction false} GovernedRunIsRatified(hash: ContentHash, calls: seq<Call>)
    requires forall k | 0 <= k < |calls| :: Governed(calls[k])
    ensures AllRatified(Run(hash, EMPTY, calls))
  {
    if calls != [] {
      var earlier := calls[..|calls| - 1];
      GovernedRunIsRatified(hash, earlier);
      ReachableIsSound(hash, earlier);
      var s := Run(hash, EMPTY, earlier);
      if Transact(hash, s, calls[|calls| - 1]).Ok? {
        RatifiedExactlyWhenGoverned(hash, s, calls[|calls| - 1]);
      }
    }
  }

  /**
   * Approval soundness of governed runs: AUTHORIZED and COMPLETED mean exactly
   * the required number of distinct approvers, none of them the generator,
   * and no rejection; APPROVAL_PENDING means fewer, and no rejection.
   */
  lemma AuthorizationMeansApproval(hash: ContentHash, calls: seq<Call>, i: nat)
    requires forall k | 0 <= k < |calls| :: Governed(calls[k])
    requires i < |Run(hash, EMPTY, calls).campaigns|
    ensures var s := Run(hash, EMPTY, calls);
            var row := s.campaigns[i];
            var people := Approvers(s.approvals, row.id);
            && row.generatedBy !in people
            && (row.state.Authorized? || row.state.Completed? ==>
                  |people| == row.requiredApprovals && CountDecisions(s.approvals, row.id, Reject) == 0)
            && (row.state.ApprovalPending? ==>
                  |people| < row.requiredApprovals && CountDecisions(s.approvals, row.id, Reject) == 0)
  {
    var s := Run(hash, EMPTY, calls);
    ReachableIsSound(hash, calls);
    GovernedRunIsRatified(hash, calls);
    assert RowSound(s.campaigns[i], s.approvals) && Ratified(s.campaigns[i], s.approvals);
    CountIsHeadcount(s.approvals, s.campaigns[i].id);
  }

  // ---------------------------------------------------------------- policy and the activation gate

  function RequiredApprovals(ctype: CampaignType, risk: Risk): int {
    if ctype.ModelChange? && risk.High? then 2
    else if risk.High? then 2
    else 1
  }

  /** Reservations that went through the governance service take their count from the policy. */
  predicate FollowsPolicy(c: Call) {
    c.request.Reserve? ==> c.request.requiredApprovals == RequiredApprovals(c.request.ctype, c.request.risk)
  }

  lemma {:induction false} PolicyIsKept(hash: ContentHash, calls: seq<Call>)
    requires forall k | 0 <= k < |calls| :: FollowsPolicy(calls[k])
    ensures forall i | 0 <= i < |Run(hash, EMPTY, calls).campaigns| ::
              var row := Run(hash, EMPTY, calls).campaigns[i];
              row.requiredApprovals == RequiredApprovals(row.ctype, row.risk) == if row.risk == High then 2 else 1
  {
    if calls != [] {
      var earlier, c := calls[..|calls| - 1], calls[|calls| - 1];
      PolicyIsKept(hash, earlier);
      var s := Run(hash, EMPTY, earlier);
      if Transact(hash, s, c).Ok? {
        EffectOf(hash, s, c);
        assert FollowsPolicy(c);
      }
    }
  }

  function DecisionsOf(approvals: seq<Approval>, id: string): seq<Approval> {
    if approvals == [] then []
    else
      var last := approvals[|approvals| - 1];
      DecisionsOf(approvals[..|approvals| - 1], id) + if last.campaignId == id then [last] else []
  }

  function Approving(decisions: seq<Approval>): seq<Approval> {
    if decisions == [] then []
    else
      var last := decisions[|decisions| - 1];
      Approving(decisions[..|decisions| - 1]) + if last.decision == Approve then [last] else []
  }

  function ActorsOf(decisions: seq<Approval>): set<string> {
    set k | 0 <= k < |decisions| :: decisions[k].actor
  }

  /** The check the Champion lifecycle makes before it activates a campaign's candidate. */
  predicate ActivationGate(row: Campaign, approvals: seq<Approval>, decisionActor: string) {
    var all := DecisionsOf(approvals, row.id);
    var approving := Approving(all);
    && row.requiredApprovals == 2 && |all| == 2 && |approving| == 2
    && |ActorsOf(approving)| == 2 && decisionActor !in ActorsOf(approving)
  }

  lemma ApprovingOfAppend(decisions: seq<Approval>, a: Approval)
    ensures Approving(decisions + [a]) == Approving(decisions) + if a.decision == Approve then [a] else []
  {
    assert (decisions + [a])[..|decisions|] == decisions;
  }

  lemma DecisionsOfAppend(approvals: seq<Approval>, a: Approval, id: string)
    ensures DecisionsOf(approvals + [a], id) == DecisionsOf(approvals, id) + if a.campaignId == id then [a] else []
  {
    assert (approvals + [a])[..|approvals|] == approvals;
  }

  lemma {:induction false} GateCountsDecisions(approvals: seq<Approval>, id: string)
    ensures var all := DecisionsOf(approvals, id);
            && |all| == CountDecisions(approvals, id, Approve) + CountDecisions(approvals, id, Reject)
            && |Approving(all)| == CountDecisions(approvals, id, Approve)
            && ActorsOf(Approving(all)) == Approvers(approvals, id)
  {
    if approvals != [] {
      var n := |approvals| - 1;
      GateCountsDecisions(approvals[..n], id);
      assert approvals == approvals[..n] + [approvals[n]];
      GateCountsOneMore(approvals[..n], approvals[n], id);
    }
  }

  lemma GateCountsOneMore(approvals: seq<Approval>, a: Approval, id: string)
    requires |DecisionsOf(approvals, id)| == CountDecisions(approvals, id, Approve) + CountDecisions(approvals, id, Reject)
    requires |Approving(DecisionsOf(approvals, id))| == CountDecisions(approvals, id, Approve)
    requires ActorsOf(Approving(DecisionsOf(approvals, id))) == Approvers(approvals, id)
    ensures var more := approvals + [a];
            var all := DecisionsOf(more, id);
            && |all| == CountDecisions(more, id, Approve) + CountDecisions(more, id, Reject)
            && |Approving(all)| == CountDecisions(more, id, Approve)
            && ActorsOf(Approving(all)) == Approvers(more, id)
  {
    var all := DecisionsOf(approvals, id);
    CountOverAppend(approvals, a, id, Approve);
    CountOverAppend(approvals, a, id, Reject);
    DecisionsOfAppend(approvals, a, id);
    ApproversOfAppend(approvals, a, id);
    if a.campaignId == id {
      ApprovingOfAppend(all, a);
      ActorsOfAppend(Approving(all), a);
      assert Approving(all) + [] == Approving(all);
    } else {
      assert all + [] == all;
    }
  }

  lemma ActorsOfAppend(decisions: seq<Approval>, a: Approval)
    ensures ActorsOf(decisions + [a]) == ActorsOf(decisions) + {a.actor}
  {
    var longer := decisions + [a];
    assert longer[|decisions|] == a;
    forall x | x in ActorsOf(decisions) ensures x in ActorsOf(longer) {
      var k :| 0 <= k < |decisions| && decisions[k].actor == x;
      assert longer[k].actor == x;
    }
  }

  /**
   * The two layers agree: for an authorized campaign of a governed, policy
   * following run whose generator is the decision actor, the activation gate
   * opens exactly for HIGH risk.
   */
  lemma GateAgreesWithStore(hash: ContentHash, calls: seq<Call>, i: nat)
    requires forall k | 0 <= k < |calls| :: Governed(calls[k]) && FollowsPolicy(calls[k])
    requires i < |Run(hash, EMPTY, calls).campaigns| && Run(hash, EMPTY, calls).campaigns[i].state.Authorized?
    ensures var s := Run(hash, EMPTY, calls);
            ActivationGate(s.campaigns[i], s.approvals, s.campaigns[i].generatedBy) <==> s.campaigns[i].risk.High?
  {
    AuthorizationMeansApproval(hash, calls, i);
    PolicyIsKept(hash, calls);
    ReachableIsSound(hash, calls);
    var s := Run(hash, EMPTY, calls);
    GateCountsDecisions(s.approvals, s.campaigns[i].id);
    CountIsHeadcount(s.approvals, s.campaigns[i].id);
  }
}
