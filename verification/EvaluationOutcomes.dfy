/** What submitting an evaluation result answers and leaves behind, in every case. */
module EvaluationOutcomes {
  import opened Prelude
  import opened AuditChain
  import opened CampaignStore
  import opened CampaignInvariants
  import opened CampaignOutcomes
  import opened CampaignGovernance

  ghost predicate LoggedMove(s: Store, t: Store, content: Content) {
    && |t.events| == |s.events| + 1 && t.events[..|s.events|] == s.events && t.events[|s.events|].content == content
  }

  /** The evaluation of row `i` was started, and nothing else happened. */
  ghost predicate Started(s: Store, half: Store, ev: Evaluation, i: nat) {
    && i < |s.campaigns| == |half.campaigns| && OnlyRow(s, half, i, half.campaigns[i]) && half.approvals == s.approvals
    && var before, after := s.campaigns[i], half.campaigns[i];
       && SameButProgress(before, after) && after.state == EvaluationPending && after.cooldownUntil == None
       && after.revision == before.revision + 1 && after.updatedAt == ev.firstNow
       && LoggedMove(s, half, Content(ev.firstEventId, ev.id,
                                      CampaignTransitioned(CandidateReady, EvaluationPending, "Independent evaluation started.", None),
                                      ev.actor, ev.firstNow))
  }

  /** The result was recorded on row `i`: a pass awaits approval, a failure is rejected and may cool down. */
  ghost predicate Concluded(s: Store, t: Store, ev: Evaluation, i: nat, answer: Result<Campaign, Error>) {
    && i < |s.campaigns| == |t.campaigns| && OnlyRow(s, t, i, t.campaigns[i]) && t.approvals == s.approvals
    && answer == Ok(t.campaigns[i])
    && var before, after := s.campaigns[i], t.campaigns[i];
       && SameButProgress(before, after)
       && (ev.passed ==> after.state == ApprovalPending && after.cooldownUntil == None)
       && (!ev.passed ==> after.state == Rejected
                          && after.cooldownUntil == if ev.cooldownSeconds == 0 then None else Some(ev.secondNow + ev.cooldownSeconds))
       && after.revision == before.revision + 1 && after.updatedAt == ev.secondNow
       && LoggedMove(s, t, Content(ev.secondEventId, ev.id,
                                   CampaignTransitioned(EvaluationPending, after.state, ev.reason, after.cooldownUntil),
                                   ev.actor, ev.secondNow))
  }

  lemma ConcludeOutcome(hash: ContentHash, s: Store, ev: Evaluation, expected: int, i: nat)
    requires Sound(hash, s) && RowOf(s, ev.id, i) && s.campaigns[i].state == EvaluationPending
    ensures var row := s.campaigns[i];
            var (t, answer) := Conclude(hash, s, ev, expected);
            if row.revision != expected then answer == Err(StaleRevision(row.revision)) && t == s
            else if !Fresh(s, ev.secondEventId) then answer == Err(EventIdTaken) && t == s
            else Concluded(s, t, ev, i, answer)
  {
    TransitionOutcome(hash, s, ResultCall(ev, expected), i);
  }

  lemma StartOutcome(hash: ContentHash, s: Store, ev: Evaluation, expected: int, i: nat)
    requires Sound(hash, s) && RowOf(s, ev.id, i) && s.campaigns[i].state == CandidateReady
    ensures var row, c := s.campaigns[i], StartCall(ev, expected);
            if row.revision != expected then Transact(hash, s, c) == Err(StaleRevision(row.revision))
            else if !Fresh(s, ev.firstEventId) then Transact(hash, s, c) == Err(EventIdTaken)
            else Transact(hash, s, c).Ok? && Started(s, Step(hash, s, c), ev, i)
                 && Transact(hash, s, c).value.reply.campaign == Step(hash, s, c).campaigns[i]
  {
    TransitionOutcome(hash, s, StartCall(ev, expected), i);
  }

  /**
   * Submitting a result, complete. A campaign that is being evaluated takes
   * the result in one step. One whose candidate is ready is started first;
   * if the second step then finds its event identifier used, the evaluation
   * stays started and nothing more. Any other campaign refuses the call.
   */
  lemma EvaluationOutcome(hash: ContentHash, s: Store, ev: Evaluation, expected: int, i: nat) returns (half: Store)
    requires Sound(hash, s) && RowOf(s, ev.id, i)
    ensures var row := s.campaigns[i];
            var (t, answer) := Evaluate(hash, s, ev, expected);
            if !row.state.CandidateReady? && !row.state.EvaluationPending? then answer == Err(InvalidArgument) && t == s
            else if row.revision != expected then answer == Err(StaleRevision(row.revision)) && t == s
            else if row.state.EvaluationPending? then
              if !Fresh(s, ev.secondEventId) then answer == Err(EventIdTaken) && t == s else Concluded(s, t, ev, i, answer)
            else if !Fresh(s, ev.firstEventId) then answer == Err(EventIdTaken) && t == s
            else Started(s, half, ev, i)
                 && if !Fresh(half, ev.secondEventId) then answer == Err(EventIdTaken) && t == half else Concluded(half, t, ev, i, answer)
  {
    half := s;
    FoundByKey(hash, s, ev.id, i);
    if s.campaigns[i].state.EvaluationPending? {
      ConcludeOutcome(hash, s, ev, expected, i);
    } else if s.campaigns[i].state.CandidateReady? {
      StartOutcome(hash, s, ev, expected, i);
      var c := StartCall(ev, expected);
      if Transact(hash, s, c).Ok? {
        half := Step(hash, s, c);
        StepKeepsSound(hash, s, c);
        ConcludeOutcome(hash, half, ev, half.campaigns[i].revision, i);
      }
    }
  }

  lemma UnknownEvaluation(hash: ContentHash, s: Store, ev: Evaluation, expected: int)
    requires forall i | 0 <= i < |s.campaigns| :: s.campaigns[i].id != ev.id
    ensures Evaluate(hash, s, ev, expected) == (s, Err(UnknownCampaign))
  {
  }
}
