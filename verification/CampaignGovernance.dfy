/** The governance service: evaluation results as one or two store transactions that can be resumed. */
module CampaignGovernance {
  import opened Prelude
  import opened AuditChain
  import opened CampaignStore
  import opened CampaignInvariants
  import opened CampaignApprovals
  import opened CampaignRepositoryModel

  /** An evaluation result to record; one audit identifier and one clock reading per transaction. */
  datatype Evaluation = Evaluation(
    id: string, passed: bool, actor: string, reason: string, cooldownSeconds: int,
    firstEventId: string, secondEventId: string, firstNow: int, secondNow: int)

  function StartCall(ev: Evaluation, expectedRevision: int): Call {
    Call(Transition(ev.id, EvaluationPending, expectedRevision, "Independent evaluation started.", 0), ev.actor, ev.firstEventId, ev.firstNow)
  }

  function ResultCall(ev: Evaluation, expectedRevision: int): Call {
    Call(Transition(ev.id, if ev.passed then ApprovalPending else Rejected, expectedRevision, ev.reason,
                    if ev.passed then 0 else ev.cooldownSeconds), ev.actor, ev.secondEventId, ev.secondNow)
  }

  /** The service call on values: start the evaluation if that has not happened, then record its result. */
  function Evaluate(hash: ContentHash, s: Store, ev: Evaluation, expectedRevision: int): (Store, Result<Campaign, Error>) {
    var found := FindById(s.campaigns, ev.id);
    if found.None? then (s, Err(UnknownCampaign))
    else if s.campaigns[found.value].state == CandidateReady then
      var started := Transact(hash, s, StartCall(ev, expectedRevision));
      if started.Err? then (s, Err(started.error))
      else Conclude(hash, started.value.store, ev, started.value.reply.campaign.revision)
    else if s.campaigns[found.value].state != EvaluationPending then (s, Err(InvalidArgument))
    else Conclude(hash, s, ev, expectedRevision)
  }

  function Conclude(hash: ContentHash, s: Store, ev: Evaluation, expectedRevision: int): (Store, Result<Campaign, Error>) {
    var done := Transact(hash, s, ResultCall(ev, expectedRevision));
    if done.Err? then (s, Err(done.error)) else (done.value.store, Ok(done.value.reply.campaign))
  }

  class CampaignGovernanceService {
    const repository: CampaignRepository

    constructor (repository: CampaignRepository)
      ensures this.repository == repository
    {
      this.repository := repository;
    }

    method Reserve(ctype: CampaignType, target: string, fingerprint: string, risk: Risk, generatedBy: string,
                   initialState: State, metadata: string, newId: string, eventId: string, now: int)
      returns (r: Result<Reply, Error>)
      modifies repository
      ensures var c := Call(CampaignStore.Reserve(ctype, target, fingerprint, risk, generatedBy,
                                                  RequiredApprovals(ctype, risk), initialState, metadata, newId),
                            "evoagent-system", eventId, now);
              && FollowsPolicy(c) && Governed(c)
              && repository.Tables() == Step(repository.hash, old(repository.Tables()), c)
              && r == Answer(repository.hash, old(repository.Tables()), c)
    {
      r := repository.ReserveCampaign(ctype, target, fingerprint, risk, generatedBy, RequiredApprovals(ctype, risk),
                                      initialState, metadata, newId, "evoagent-system", eventId, now);
    }

    method SubmitEvaluation(ev: Evaluation, expected: int) returns (r: Result<Campaign, Error>)
      modifies repository
      ensures (repository.Tables(), r) == Evaluate(repository.hash, old(repository.Tables()), ev, expected)
    {
      var expectedRevision := expected;
      var found := FindById(repository.campaigns, ev.id);
      if found.None? {
        return Err(UnknownCampaign);
      }
      var campaign := repository.campaigns[found.value];
      if campaign.state == CandidateReady {
        var started := repository.TransitionTo(ev.id, EvaluationPending, expectedRevision, ev.actor,
                                               "Independent evaluation started.", 0, ev.firstEventId, ev.firstNow);
        if started.Err? {
          return Err(started.error);
        }
        campaign := started.value.campaign;
        expectedRevision := campaign.revision;
      }
      if campaign.state != EvaluationPending {
        return Err(InvalidArgument);
      }
      var done := repository.TransitionTo(ev.id, if ev.passed then ApprovalPending else Rejected, expectedRevision, ev.actor,
                                          ev.reason, if ev.passed then 0 else ev.cooldownSeconds, ev.secondEventId, ev.secondNow);
      if done.Err? {
        return Err(done.error);
      }
      return Ok(done.value.campaign);
    }
  }

  // ---------------------------------------------------------------- resuming

  /** The state changes of one campaign, oldest first. */
  function Trail(log: Log, id: string): seq<(State, State)> {
    if log == [] then []
    else
      var e := log[|log| - 1].content;
      Trail(log[..|log| - 1], id)
      + if e.campaignId == id && e.payload.CampaignTransitioned? then [(e.payload.fromState, e.payload.toState)] else []
  }

  /** A transition commits exactly when the row is there, at that revision, the move is legal and the event is new. */
  lemma TransitionCommits(hash: ContentHash, s: Store, c: Call)
    requires Sound(hash, s) && c.request.Transition?
    ensures var q := c.request;
            var found := FindById(s.campaigns, q.id);
            Transact(hash, s, c).Ok? <==>
              && found.Some? && s.campaigns[found.value].revision == q.expectedRevision
              && q.toState in LegalTransitions(s.campaigns[found.value].state) && !EventIdUsed(s.events, c.eventId)
  {
  }

  lemma TransitionResult(hash: ContentHash, s: Store, c: Call, i: nat)
    requires Sound(hash, s) && c.request.Transition? && Transact(hash, s, c).Ok?
    requires FindById(s.campaigns, c.request.id) == Some(i)
    ensures var t := Step(hash, s, c);
            && t.campaigns == s.campaigns[i := Move(s.campaigns[i], c.request.toState,
                                                    CooldownAfter(c.request.toState, c.request.cooldownSeconds, c.now), c.now)]
            && FindById(t.campaigns, c.request.id) == Some(i)
            && Trail(t.events, c.request.id) == Trail(s.events, c.request.id) + [(s.campaigns[i].state, c.request.toState)]
            && (forall e: string :: EventIdUsed(t.events, e) <==> EventIdUsed(s.events, e) || e == c.eventId)
            && t.approvals == s.approvals
  {
    var t := Step(hash, s, c);
    StepKeepsSound(hash, s, c);
    assert t.events[..|s.events|] == s.events;
    assert t.campaigns[i].id == c.request.id;
    forall e: string ensures EventIdUsed(t.events, e) <==> EventIdUsed(s.events, e) || e == c.eventId {
      assert t.events[|s.events|].content.eventId == c.eventId;
      if EventIdUsed(s.events, e) {
        var k :| 0 <= k < |s.events| && s.events[k].content.eventId == e;
        assert t.events[k].content.eventId == e;
      }
    }
  }

  /** Recording a result on a started evaluation commits and is determined by the row and the result. */
  lemma ResultIsRecorded(hash: ContentHash, s: Store, ev: Evaluation, i: nat)
    requires Sound(hash, s) && FindById(s.campaigns, ev.id) == Some(i) && s.campaigns[i].state == EvaluationPending
    requires !EventIdUsed(s.events, ev.secondEventId)
    ensures var to := if ev.passed then ApprovalPending else Rejected;
            var seconds := if ev.passed then 0 else ev.cooldownSeconds;
            var row := Move(s.campaigns[i], to, CooldownAfter(to, seconds, ev.secondNow), ev.secondNow);
            var (t, answer) := Conclude(hash, s, ev, s.campaigns[i].revision);
            && answer == Ok(row) && t.campaigns == s.campaigns[i := row]
            && Trail(t.events, ev.id) == Trail(s.events, ev.id) + [(EvaluationPending, to)]
  {
    var c := ResultCall(ev, s.campaigns[i].revision);
    TransitionCommits(hash, s, c);
    TransitionResult(hash, s, c, i);
  }

  /** The first of the two transactions, on its own. */
  lemma EvaluationStarts(hash: ContentHash, s: Store, ev: Evaluation, i: nat)
    requires Sound(hash, s) && FindById(s.campaigns, ev.id) == Some(i) && s.campaigns[i].state == CandidateReady
    requires !EventIdUsed(s.events, ev.firstEventId)
    ensures var start := StartCall(ev, s.campaigns[i].revision);
            var half := Step(hash, s, start);
            && Transact(hash, s, start).Ok? && Transact(hash, s, start).value.reply.campaign == half.campaigns[i]
            && Sound(hash, half) && FindById(half.campaigns, ev.id) == Some(i)
            && half.campaigns[i].state == EvaluationPending && half.campaigns[i].revision == s.campaigns[i].revision + 1
            && (forall e: string :: EventIdUsed(half.events, e) <==> EventIdUsed(s.events, e) || e == ev.firstEventId)
  {
    var start := StartCall(ev, s.campaigns[i].revision);
    TransitionCommits(hash, s, start);
    TransitionResult(hash, s, start, i);
    StepKeepsSound(hash, s, start);
  }

  /**
   * Resumable evaluation: if the process stops between the two transactions,
   * retrying with the revision now on record commits, and ends in the same
   * state, at the same revision and with the same history of state changes
   * as the call that was not interrupted.
   */
  lemma InterruptedEvaluationResumes(hash: ContentHash, s: Store, ev: Evaluation, retry: Evaluation, i: nat)
    requires Sound(hash, s)
    requires FindById(s.campaigns, ev.id) == Some(i) && s.campaigns[i].state == CandidateReady
    requires retry.id == ev.id && retry.passed == ev.passed
    requires !EventIdUsed(s.events, ev.firstEventId)
    requires !EventIdUsed(s.events, ev.secondEventId) && ev.secondEventId != ev.firstEventId
    requires !EventIdUsed(s.events, retry.secondEventId) && retry.secondEventId != ev.firstEventId
    ensures var revision := s.campaigns[i].revision;
            var (whole, answer) := Evaluate(hash, s, ev, revision);
            var half := Step(hash, s, StartCall(ev, revision));
            i < |half.campaigns| &&
            var (resumed, again) := Evaluate(hash, half, retry, half.campaigns[i].revision);
            && answer.Ok? && again.Ok?
            && answer.value.state == again.value.state && answer.value.revision == again.value.revision == revision + 2
            && Trail(whole.events, ev.id) == Trail(resumed.events, ev.id)
            && (retry.secondNow == ev.secondNow && retry.cooldownSeconds == ev.cooldownSeconds ==> whole.campaigns == resumed.campaigns)
  {
    EvaluationStarts(hash, s, ev, i);
    var half := Step(hash, s, StartCall(ev, s.campaigns[i].revision));
    ResultIsRecorded(hash, half, ev, i);
    ResultIsRecorded(hash, half, retry, i);
    assert Evaluate(hash, s, ev, s.campaigns[i].revision) == Conclude(hash, half, ev, half.campaigns[i].revision);
    assert Evaluate(hash, half, retry, half.campaigns[i].revision) == Conclude(hash, half, retry, half.campaigns[i].revision);
  }

  // ---------------------------------------------------------------- interleaving

  lemma {:induction false} RowOnlyMovesForward(hash: ContentHash, s: Store, calls: seq<Call>, i: nat)
    requires Sound(hash, s) && i < |s.campaigns|
    ensures var t := Run(hash, s, calls);
            && Sound(hash, t) && i < |t.campaigns| && t.campaigns[i].id == s.campaigns[i].id
            && (t.campaigns[i] == s.campaigns[i] || t.campaigns[i].revision > s.campaigns[i].revision)
  {
    if calls != [] {
      var earlier, c := calls[..|calls| - 1], calls[|calls| - 1];
      RowOnlyMovesForward(hash, s, earlier, i);
      var m := Run(hash, s, earlier);
      StepKeepsSound(hash, m, c);
      if Transact(hash, m, c).Ok? {
        EffectOf(hash, m, c);
      }
    }
  }

  /**
   * Whatever other calls run between the two transactions, the result is
   * recorded only on the very row the evaluation started.
   */
  lemma ResultLandsOnStartedRow(hash: ContentHash, s: Store, ev: Evaluation, between: seq<Call>, i: nat)
    requires Sound(hash, s) && FindById(s.campaigns, ev.id) == Some(i) && s.campaigns[i].state == CandidateReady
    requires Transact(hash, s, StartCall(ev, s.campaigns[i].revision)).Ok?
    ensures var half := Step(hash, s, StartCall(ev, s.campaigns[i].revision));
            var later := Run(hash, half, between);
            && i < |half.campaigns| && i < |later.campaigns|
            && (Transact(hash, later, ResultCall(ev, half.campaigns[i].revision)).Ok? ==> later.campaigns[i] == half.campaigns[i])
  {
    var start := StartCall(ev, s.campaigns[i].revision);
    TransitionResult(hash, s, start, i);
    StepKeepsSound(hash, s, start);
    var half := Step(hash, s, start);
    RowOnlyMovesForward(hash, half, between, i);
    CommitNeedsSameRow(hash, Run(hash, half, between), ResultCall(ev, half.campaigns[i].revision), i, half.campaigns[i]);
  }

  lemma CommitNeedsSameRow(hash: ContentHash, s: Store, c: Call, i: nat, row: Campaign)
    requires Sound(hash, s) && c.request.Transition? && i < |s.campaigns|
    requires s.campaigns[i].id == c.request.id == row.id && c.request.expectedRevision == row.revision
    requires s.campaigns[i] == row || s.campaigns[i].revision > row.revision
    ensures Transact(hash, s, c).Ok? ==> s.campaigns[i] == row
  {
    TransitionCommits(hash, s, c);
    assert FindById(s.campaigns, c.request.id) == Some(i);
  }

  lemma {:induction false} RunOfConcat(hash: ContentHash, s: Store, a: seq<Call>, b: seq<Call>)
    ensures Run(hash, s, a + b) == Run(hash, Run(hash, s, a), b)
  {
    if b == [] {
      assert a + b == a;
    } else {
      assert (a + b)[..|a + b| - 1] == a + b[..|b| - 1];
      RunOfConcat(hash, s, a, b[..|b| - 1]);
    }
  }

  /** The service adds nothing of its own: what it does to the store is a governed run of at most two calls. */
  lemma EvaluationIsGovernedRun(hash: ContentHash, history: seq<Call>, ev: Evaluation, expectedRevision: int) returns (calls: seq<Call>)
    ensures |calls| <= 2 && (forall k | 0 <= k < |calls| :: Governed(calls[k]) && FollowsPolicy(calls[k]))
    ensures Run(hash, EMPTY, history + calls) == Evaluate(hash, Run(hash, EMPTY, history), ev, expectedRevision).0
  {
    var s := Run(hash, EMPTY, history);
    var found := FindById(s.campaigns, ev.id);
    calls := [];
    if found.Some? {
      var start := StartCall(ev, expectedRevision);
      if s.campaigns[found.value].state == CandidateReady {
        calls := [start];
        assert calls[..0] == [];
        assert Run(hash, s, calls) == Step(hash, s, start);
        var started := Transact(hash, s, start);
        if started.Ok? {
          calls := [start, ResultCall(ev, started.value.reply.campaign.revision)];
          assert calls[..1] == [start];
        }
      } else if s.campaigns[found.value].state == EvaluationPending {
        calls := [ResultCall(ev, expectedRevision)];
        assert calls[..0] == [];
      }
    }
    RunOfConcat(hash, EMPTY, history, calls);
  }
}
