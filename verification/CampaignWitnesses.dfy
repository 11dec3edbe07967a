/** Concrete runs that show why the hypotheses of the run theorems are there. */
module CampaignWitnesses {
  import opened Prelude
  import opened AuditChain
  import opened CampaignStore
  import opened CampaignInvariants
  import opened CampaignApprovals
  import opened CampaignCooldown
  import opened CampaignReplay

  function ReserveSkill(id: string): Request {
    Reserve(SkillChange, "skill", "f", Low, "generator", 1, State.Open, "", id)
  }

  function SkillRow(id: string, state: State, createdAt: int, updatedAt: int, until: Option<int>, revision: int): Campaign {
    Campaign(id, SkillChange, "skill", "f", state, Low, "generator", 1, None, None, "", createdAt, updatedAt, until, revision)
  }

  function EventId(content: Content): string { content.eventId }

  lemma ReserveFirst(hash: ContentHash, now: int)
    ensures var s := Step(hash, EMPTY, Call(ReserveSkill("a"), "system", "", now));
            s.campaigns == [SkillRow("a", State.Open, now, now, None, 0)] && s.approvals == [] && Numbered(s.events, EventId, 1)
  {
  }

  lemma MoveLast(hash: ContentHash, s: Store, toState: State, seconds: int, eventId: string, now: int)
    requires s.campaigns != [] && KeysUnique(s.campaigns) && OpenTargetsUnique(s.campaigns)
    requires Numbered(s.events, EventId, |eventId|)
    requires var last := s.campaigns[|s.campaigns| - 1];
             toState in LegalTransitions(last.state)
    ensures var n := |s.campaigns| - 1;
            var last := s.campaigns[n];
            var t := Step(hash, s, Call(Transition(last.id, toState, last.revision, "", seconds), "system", eventId, now));
            && t.campaigns == s.campaigns[..n] + [Move(last, toState, CooldownAfter(toState, seconds, now), now)]
            && t.approvals == s.approvals && Numbered(t.events, EventId, |eventId| + 1)
  {
    var n := |s.campaigns| - 1;
    var last := s.campaigns[n];
    var rows := s.campaigns[n := Move(last, toState, CooldownAfter(toState, seconds, now), now)];
    assert FindById(s.campaigns, last.id) == Some(n);
    assert OpenTargetsUnique(rows);
    assert rows == s.campaigns[..n] + [rows[n]];
  }

  /**
   * Four direct transitions take a campaign to AUTHORIZED with no approval on
   * record although one was required.
   */
  lemma DirectTransitionBypassesApproval(hash: ContentHash)
    ensures exists calls :: Alone(Run(hash, EMPTY, calls), Authorized, 4)
  {
    var calls := AwaitApproval(hash);
    calls := MoveOnly(hash, calls, ApprovalPending, Authorized, "eeee");
  }

  /** A run of one campaign up to APPROVAL_PENDING. */
  lemma AwaitApproval(hash: ContentHash) returns (calls: seq<Call>)
    ensures Alone(Run(hash, EMPTY, calls), ApprovalPending, 3)
  {
    var c0 := Call(ReserveSkill("a"), "system", "", 0);
    ReserveFirst(hash, 0);
    RunExtends(hash, [], c0);
    assert [] + [c0] == [c0];
    calls := MoveOnly(hash, [c0], State.Open, CandidateReady, "e");
    calls := MoveOnly(hash, calls, CandidateReady, EvaluationPending, "ee");
    calls := MoveOnly(hash, calls, EvaluationPending, ApprovalPending, "eee");
  }

  function RejectingVote(seconds: int): Call {
    Call(RecordApproval("a", "vote", Reject, "regression", 3, seconds), "voter", "eeee", 4)
  }

  lemma VoteCommits(hash: ContentHash, s: Store, seconds: int)
    requires Alone(s, ApprovalPending, 3)
    ensures Transact(hash, s, RejectingVote(seconds)).Ok?
  {
    assert FindById(s.campaigns, "a") == Some(0);
    assert |"voter"| != |"generator"|;
  }

  /**
   * Two real runs that end in a rejecting vote, one with a cooldown of an
   * hour and one with none: the audit logs are equal, the tables are not.
   */
  lemma SameLogDifferentCooldown(hash: ContentHash) returns (calls: seq<Call>)
    ensures var t, u := Run(hash, EMPTY, calls + [RejectingVote(3600)]), Run(hash, EMPTY, calls + [RejectingVote(0)]);
            && |t.approvals| == |u.approvals| == 1 && t.events == u.events
            && |t.campaigns| == |u.campaigns| == 1
            && t.campaigns[0].cooldownUntil == Some(3604) && u.campaigns[0].cooldownUntil == None
  {
    calls := AwaitApproval(hash);
    var s := Run(hash, EMPTY, calls);
    VoteCommits(hash, s, 3600);
    VoteCommits(hash, s, 0);
    VotedCooldownLeavesNoTrace(hash, s, RejectingVote(3600), 0);
    RunExtends(hash, calls, RejectingVote(3600));
    RunExtends(hash, calls, RejectingVote(0));
  }

  /** One campaign that needs one approval, no approval on record, `n` writes so far. */
  ghost predicate Alone(s: Store, state: State, n: nat) {
    s.campaigns == [SkillRow("a", state, 0, n, None, n)] && s.approvals == [] && Numbered(s.events, EventId, n + 1)
  }

  lemma MoveOnly(hash: ContentHash, calls: seq<Call>, fromState: State, toState: State, eventId: string) returns (more: seq<Call>)
    requires |eventId| > 0 && Alone(Run(hash, EMPTY, calls), fromState, |eventId| - 1)
    requires toState in LegalTransitions(fromState)
    ensures Alone(Run(hash, EMPTY, more), toState, |eventId|)
  {
    var n := |eventId| - 1;
    more := calls + [Call(Transition("a", toState, n, "", 0), "system", eventId, n + 1)];
    RunExtends(hash, calls, more[|calls|]);
    MoveLast(hash, Run(hash, EMPTY, calls), toState, 0, eventId, n + 1);
  }

  lemma RunExtends(hash: ContentHash, calls: seq<Call>, c: Call)
    ensures Run(hash, EMPTY, calls + [c]) == Step(hash, Run(hash, EMPTY, calls), c)
  {
    assert (calls + [c])[..|calls|] == calls;
  }

  /** The campaign rows and the number of events after a run. */
  ghost predicate Reaches(hash: ContentHash, calls: seq<Call>, rows: seq<Campaign>, n: nat) {
    var s := Run(hash, EMPTY, calls);
    s.campaigns == rows && Numbered(s.events, EventId, n)
  }

  const FIRST_CLOSED := SkillRow("a", Cancelled, 50, 100, Some(160), 1)
  const SECOND_OPEN := SkillRow("bb", State.Open, 170, 170, None, 0)
  const SECOND_CLOSED := SkillRow("bb", Cancelled, 170, 90, Some(1090), 1)

  lemma CancelFirst(hash: ContentHash) returns (calls: seq<Call>)
    ensures Reaches(hash, calls, [FIRST_CLOSED], 2)
  {
    var c0 := Call(ReserveSkill("a"), "system", "", 50);
    ReserveFirst(hash, 50);
    RunExtends(hash, [], c0);
    assert [] + [c0] == [c0];
    assert Run(hash, EMPTY, []) == EMPTY;
    var c1 := Call(Transition("a", Cancelled, 0, "", 60), "system", "e", 100);
    RunExtends(hash, [c0], c1);
    MoveLast(hash, Run(hash, EMPTY, [c0]), Cancelled, 60, "e", 100);
    calls := [c0] + [c1];
  }

  lemma ReserveSecond(hash: ContentHash, calls: seq<Call>) returns (more: seq<Call>)
    requires Reaches(hash, calls, [FIRST_CLOSED], 2)
    ensures Reaches(hash, more, [FIRST_CLOSED, SECOND_OPEN], 3)
  {
    var c := Call(ReserveSkill("bb"), "system", "ee", 170);
    more := calls + [c];
    RunExtends(hash, calls, c);
    var s := Run(hash, EMPTY, calls);
    assert |"bb"| != |"a"|;
    assert LatestCooldown(s.campaigns, "skill") == Some(0);
    assert s.campaigns + [SECOND_OPEN] == [FIRST_CLOSED, SECOND_OPEN];
    assert OpenTargetsUnique(s.campaigns + [SECOND_OPEN]);
  }

  lemma CancelSecond(hash: ContentHash, calls: seq<Call>) returns (more: seq<Call>)
    requires Reaches(hash, calls, [FIRST_CLOSED, SECOND_OPEN], 3)
    ensures Reaches(hash, more, [FIRST_CLOSED, SECOND_CLOSED], 4)
  {
    var c := Call(Transition("bb", Cancelled, 0, "", 1000), "system", "eee", 90);
    more := calls + [c];
    RunExtends(hash, calls, c);
    assert |"bb"| != |"a"|;
    var s := Run(hash, EMPTY, calls);
    MoveLast(hash, s, Cancelled, 1000, "eee", 90);
    assert s.campaigns[..1] + [SECOND_CLOSED] == [FIRST_CLOSED, SECOND_CLOSED];
  }

  lemma SecondDeadlineIsHidden()
    ensures !LookupBlocks([FIRST_CLOSED, SECOND_CLOSED], "skill", 200) && StillCooling([FIRST_CLOSED, SECOND_CLOSED], "skill", 200)
  {
    var rows := [FIRST_CLOSED, SECOND_CLOSED];
    assert rows[..1] == [FIRST_CLOSED];
    assert LatestCooldown(rows[..1], "skill") == Some(0);
    assert CoolsTarget(rows[1], "skill") && rows[1].cooldownUntil.value > 200;
  }

  lemma ThirdIsReserved(hash: ContentHash, s: Store)
    requires s.campaigns == [FIRST_CLOSED, SECOND_CLOSED] && Numbered(s.events, EventId, 4)
    ensures var r := Transact(hash, s, Call(ReserveSkill("ccc"), "system", "eeee", 200));
            r.Ok? && !r.value.reply.reused
  {
    SecondDeadlineIsHidden();
    assert |"ccc"| != |"a"| && |"ccc"| != |"bb"|;
    assert FindOpen(s.campaigns, "skill").None?;
    assert OpenTargetsUnique(s.campaigns + [NewCampaign(ReserveSkill("ccc"), 200)]);
  }

  /**
   * A clock that steps back between two closures hides a deadline. Campaign
   * "bb" is cancelled at 90, after "a" at 100, with a cooldown until 1090; at
   * 200 the store looks at "a" and lets the target be reserved again.
   */
  lemma BackwardClockHidesCooldown(hash: ContentHash) returns (calls: seq<Call>)
    ensures StillCooling(Run(hash, EMPTY, calls).campaigns, "skill", 200)
    ensures var r := Transact(hash, Run(hash, EMPTY, calls), Call(ReserveSkill("ccc"), "system", "eeee", 200));
            r.Ok? && !r.value.reply.reused
  {
    calls := CancelFirst(hash);
    calls := ReserveSecond(hash, calls);
    calls := CancelSecond(hash, calls);
    SecondDeadlineIsHidden();
    assert Reaches(hash, calls, [FIRST_CLOSED, SECOND_CLOSED], 4);
    ThirdIsReserved(hash, Run(hash, EMPTY, calls));
  }
}
