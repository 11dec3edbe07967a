/**
 * The governed Campaign store: three tables (campaigns, approvals, audit
 * events) written by four transactional operations. `Transact` gives each
 * operation as one atomic step on values; `CampaignRepository` is the object
 * whose methods update the tables in place and roll back.
 */
module CampaignStore {
  import opened Prelude
  import opened AuditChain

  datatype CampaignType =
    | SkillChange | ModelChange | ModelActivation | ChampionPromotion | ChampionRelease | ChampionRollback
    | EvolutionGeneration | LocalPolicyPromotion | LocalPolicyRollback | RouterChange | ToolChange
    | ContextChange | VerifierChange

  datatype State =
    | Open | EvidenceAccumulating | CandidateReady | EvaluationPending | ApprovalPending
    | Authorized | Rejected | Cancelled | Completed

  datatype Risk = Low | Medium | High

  datatype Decision = Approve | Reject

  datatype Campaign = Campaign(
    id: string,
    ctype: CampaignType,
    target: string,
    fingerprint: string,
    state: State,
    risk: Risk,
    generatedBy: string,
    requiredApprovals: int,
    candidateRef: Option<string>,
    artifact: Option<string>,
    metadata: string,
    createdAt: int,
    updatedAt: int,
    cooldownUntil: Option<int>,
    revision: int)

  datatype Approval = Approval(
    approvalId: string,
    campaignId: string,
    actor: string,
    decision: Decision,
    reason: string,
    createdAt: int)

  /** What each kind of audit event records. */
  datatype Payload =
    | CampaignCreated(ctype: CampaignType, target: string, fingerprint: string, state: State)
    | CampaignReused(target: string, fingerprint: string, metadata: string)
    | CandidateAttached(candidateRef: string)
    | CampaignTransitioned(fromState: State, toState: State, reason: string, cooldownUntil: Option<int>)
    | ApprovalRecorded(decision: Decision, reason: string, resultingState: State)

  datatype Content = Content(eventId: string, campaignId: string, payload: Payload, actor: string, createdAt: int)

  type Log = seq<Event<Content>>
  type ContentHash = EventHash<Content>

  datatype Store = Store(campaigns: seq<Campaign>, approvals: seq<Approval>, events: Log)

  const EMPTY := Store([], [], [])

  datatype Request =
    | Reserve(ctype: CampaignType, target: string, fingerprint: string, risk: Risk, generatedBy: string,
              requiredApprovals: int, initialState: State, metadata: string, newId: string)
    | Attach(id: string, candidateRef: string, artifact: string, expectedRevision: int)
    | Transition(id: string, toState: State, expectedRevision: int, reason: string, cooldownSeconds: int)
    | RecordApproval(id: string, approvalId: string, decision: Decision, reason: string, expectedRevision: int,
                     cooldownSeconds: int)

  /** One public call: the request, who makes it, the clock, and the identifier drawn for its audit event. */
  datatype Call = Call(request: Request, actor: string, eventId: string, now: int)

  datatype Refusal = NotAwaitingApproval | SelfApproval | DuplicateDecision

  datatype Error =
    | InvalidArgument
    | Conflict(owner: string)
    | CoolingDown(until: int)
    | DuplicateKey
    | OpenTargetIndex
    | EventIdTaken
    | UnknownCampaign
    | StaleRevision(found: int)
    | IllegalTransition
    | ApprovalRefused(why: Refusal)

  datatype Reply = Reply(campaign: Campaign, reused: bool)

  datatype Commit = Commit(store: Store, reply: Reply)

  // ---------------------------------------------------------------- transition table

  predicate IsOpen(state: State) {
    !state.Rejected? && !state.Cancelled? && !state.Completed?
  }

  function LegalTransitions(state: State): set<State> {
    match state
    case Open => {EvidenceAccumulating, CandidateReady, Cancelled}
    case EvidenceAccumulating => {CandidateReady, Cancelled}
    case CandidateReady => {EvaluationPending, Rejected, Cancelled}
    case EvaluationPending => {ApprovalPending, Rejected, Cancelled}
    case ApprovalPending => {Authorized, Rejected, Cancelled}
    case Authorized => {Completed, Cancelled}
    case _ => {}
  }

  // ---------------------------------------------------------------- queries

  function CampaignId(row: Campaign): string { row.id }

  function FindById(rows: seq<Campaign>, id: string): (found: Option<nat>)
    ensures found.Some? ==> found.value < |rows| && rows[found.value].id == id
    ensures found.None? ==> forall i | 0 <= i < |rows| :: rows[i].id != id
  {
    var found := Find(rows, CampaignId, id);
    assert found.None? ==> forall i | 0 <= i < |rows| :: CampaignId(rows[i]) != id;
    found
  }

  function FindOpen(rows: seq<Campaign>, target: string): (found: Option<nat>)
    ensures found.Some? ==> found.value < |rows| && rows[found.value].target == target && IsOpen(rows[found.value].state)
    ensures found.None? ==> forall i | 0 <= i < |rows| :: !(rows[i].target == target && IsOpen(rows[i].state))
  {
    if rows == [] then None
    else
      var last := rows[|rows| - 1];
      if last.target == target && IsOpen(last.state) then Some(|rows| - 1)
      else FindOpen(rows[..|rows| - 1], target)
  }

  predicate CoolsTarget(row: Campaign, target: string) {
    row.target == target && row.cooldownUntil.Some?
  }

  /**
   * A most recently updated row of the target that carries a cooldown. SQL
   * leaves the choice among equally recent rows open; `AnyTieBreakAgrees`
   * shows that it does not matter.
   */
  function LatestCooldown(rows: seq<Campaign>, target: string): (found: Option<nat>)
    ensures found.Some? ==> IsLatestCooldown(rows, target, found.value)
    ensures found.None? ==> forall i | 0 <= i < |rows| :: !CoolsTarget(rows[i], target)
  {
    if rows == [] then None
    else
      var last := |rows| - 1;
      var earlier := LatestCooldown(rows[..last], target);
      if !CoolsTarget(rows[last], target) then earlier
      else if earlier.Some? && rows[last].updatedAt <= rows[earlier.value].updatedAt then earlier
      else Some(last)
  }

  ghost predicate IsLatestCooldown(rows: seq<Campaign>, target: string, k: nat) {
    && k < |rows| && CoolsTarget(rows[k], target)
    && forall i | 0 <= i < |rows| && CoolsTarget(rows[i], target) :: rows[i].updatedAt <= rows[k].updatedAt
  }

  function CountDecisions(approvals: seq<Approval>, id: string, decision: Decision): nat {
    if approvals == [] then 0
    else
      var last := approvals[|approvals| - 1];
      CountDecisions(approvals[..|approvals| - 1], id, decision)
      + if last.campaignId == id && last.decision == decision then 1 else 0
  }

  predicate HasDecided(approvals: seq<Approval>, id: string, actor: string) {
    exists i | 0 <= i < |approvals| :: approvals[i].campaignId == id && approvals[i].actor == actor
  }

  predicate ApprovalIdTaken(approvals: seq<Approval>, approvalId: string) {
    exists i | 0 <= i < |approvals| :: approvals[i].approvalId == approvalId
  }

  predicate EventIdUsed(log: Log, eventId: string) {
    exists i | 0 <= i < |log| :: log[i].content.eventId == eventId
  }

  /** The partial unique index on (target_key) over open states. */
  predicate OpenTargetsUnique(rows: seq<Campaign>) {
    forall i, j | 0 <= i < j < |rows| :: !(rows[i].target == rows[j].target && IsOpen(rows[i].state) && IsOpen(rows[j].state))
  }

  // ---------------------------------------------------------------- operations on values

  /** Append the audit event and commit; a repeated event identifier aborts the transaction. */
  function Finish(hash: ContentHash, rows: seq<Campaign>, approvals: seq<Approval>, log: Log, content: Content, reply: Reply)
    : Result<Commit, Error>
  {
    if EventIdUsed(log, content.eventId) then Err(EventIdTaken)
    else Ok(Commit(Store(rows, approvals, Append(hash, log, content)), reply))
  }

  /** Overwrite row `i`, subject to the unique index, then append the event and commit. */
  function Write(hash: ContentHash, s: Store, i: nat, row: Campaign, approvals: seq<Approval>, content: Content)
    : Result<Commit, Error>
    requires i < |s.campaigns|
  {
    var rows := s.campaigns[i := row];
    if !OpenTargetsUnique(rows) then Err(OpenTargetIndex)
    else Finish(hash, rows, approvals, s.events, content, Reply(row, false))
  }

  function NewCampaign(q: Request, now: int): Campaign
    requires q.Reserve?
  {
    Campaign(q.newId, q.ctype, q.target, q.fingerprint, q.initialState, q.risk, q.generatedBy, q.requiredApprovals,
             None, None, q.metadata, now, now, None, 0)
  }

  function TransactReserve(hash: ContentHash, s: Store, c: Call): Result<Commit, Error>
    requires c.request.Reserve?
  {
    var q := c.request;
    if q.requiredApprovals < 1 || !(q.initialState.Open? || q.initialState.EvidenceAccumulating?) then
      Err(InvalidArgument)
    else
      var existing := FindOpen(s.campaigns, q.target);
      if existing.Some? then
        var record := s.campaigns[existing.value];
        if record.fingerprint != q.fingerprint then Err(Conflict(record.id))
        else
          Finish(hash, s.campaigns, s.approvals, s.events,
                 Content(c.eventId, record.id, CampaignReused(q.target, q.fingerprint, q.metadata), c.actor, c.now),
                 Reply(record, true))
      else
        var closed := LatestCooldown(s.campaigns, q.target);
        if closed.Some? && s.campaigns[closed.value].cooldownUntil.value > c.now then
          Err(CoolingDown(s.campaigns[closed.value].cooldownUntil.value))
        else if FindById(s.campaigns, q.newId).Some? then Err(DuplicateKey)
        else
          var row := NewCampaign(q, c.now);
          if !OpenTargetsUnique(s.campaigns + [row]) then Err(OpenTargetIndex)
          else
            Finish(hash, s.campaigns + [row], s.approvals, s.events,
                   Content(c.eventId, q.newId, CampaignCreated(q.ctype, q.target, q.fingerprint, q.initialState), c.actor, c.now),
                   Reply(row, false))
  }

  /** Fetch a row by key and check the optimistic revision. */
  function Fetch(s: Store, id: string, expectedRevision: int): (r: Result<nat, Error>)
    ensures r.Ok? ==> r.value < |s.campaigns| && s.campaigns[r.value].id == id && s.campaigns[r.value].revision == expectedRevision
  {
    var found := FindById(s.campaigns, id);
    if found.None? then Err(UnknownCampaign)
    else if s.campaigns[found.value].revision != expectedRevision then Err(StaleRevision(s.campaigns[found.value].revision))
    else Ok(found.value)
  }

  function TransactAttach(hash: ContentHash, s: Store, c: Call): Result<Commit, Error>
    requires c.request.Attach?
  {
    var q := c.request;
    var fetched := Fetch(s, q.id, q.expectedRevision);
    if fetched.Err? then Err(fetched.error)
    else
      var record := s.campaigns[fetched.value];
      if CandidateReady !in LegalTransitions(record.state) then Err(IllegalTransition)
      else
        var row := record.(candidateRef := Some(q.candidateRef), artifact := Some(q.artifact), state := CandidateReady,
                           updatedAt := c.now, revision := record.revision + 1);
        Write(hash, s, fetched.value, row, s.approvals,
              Content(c.eventId, q.id, CandidateAttached(q.candidateRef), c.actor, c.now))
  }

  function CooldownAfter(toState: State, cooldownSeconds: int, now: int): Option<int> {
    if (toState.Rejected? || toState.Cancelled?) && cooldownSeconds != 0 then Some(now + cooldownSeconds) else None
  }

  function Move(record: Campaign, toState: State, cooldownUntil: Option<int>, now: int): Campaign {
    record.(state := toState, updatedAt := now, cooldownUntil := cooldownUntil, revision := record.revision + 1)
  }

  function TransactTransition(hash: ContentHash, s: Store, c: Call): Result<Commit, Error>
    requires c.request.Transition?
  {
    var q := c.request;
    var fetched := Fetch(s, q.id, q.expectedRevision);
    if fetched.Err? then Err(fetched.error)
    else
      var record := s.campaigns[fetched.value];
      if q.toState !in LegalTransitions(record.state) then Err(IllegalTransition)
      else
        var until := CooldownAfter(q.toState, q.cooldownSeconds, c.now);
        Write(hash, s, fetched.value, Move(record, q.toState, until, c.now), s.approvals,
              Content(c.eventId, q.id, CampaignTransitioned(record.state, q.toState, q.reason, until), c.actor, c.now))
  }

  /** The state an accepted decision leads to, counted over the table that already holds the new record. */
  function StateAfterDecision(record: Campaign, approvals: seq<Approval>, decision: Decision): State {
    if decision == Reject then Rejected
    else if CountDecisions(approvals, record.id, Approve) >= record.requiredApprovals then Authorized
    else record.state
  }

  function TransactApproval(hash: ContentHash, s: Store, c: Call): Result<Commit, Error>
    requires c.request.RecordApproval?
  {
    var q := c.request;
    var fetched := Fetch(s, q.id, q.expectedRevision);
    if fetched.Err? then Err(fetched.error)
    else
      var record := s.campaigns[fetched.value];
      if record.state != ApprovalPending then Err(ApprovalRefused(NotAwaitingApproval))
      else if c.actor == record.generatedBy then Err(ApprovalRefused(SelfApproval))
      else if HasDecided(s.approvals, q.id, c.actor) || ApprovalIdTaken(s.approvals, q.approvalId) then
        Err(ApprovalRefused(DuplicateDecision))
      else
        var approvals := s.approvals + [Approval(q.approvalId, q.id, c.actor, q.decision, q.reason, c.now)];
        var next := StateAfterDecision(record, approvals, q.decision);
        Write(hash, s, fetched.value, Move(record, next, CooldownAfter(next, q.cooldownSeconds, c.now), c.now), approvals,
              Content(c.eventId, q.id, ApprovalRecorded(q.decision, q.reason, next), c.actor, c.now))
  }

  /** One public write as a transaction: either a committed store or an error. */
  function Transact(hash: ContentHash, s: Store, c: Call): Result<Commit, Error> {
    match c.request
    case Reserve(_, _, _, _, _, _, _, _, _) => TransactReserve(hash, s, c)
    case Attach(_, _, _, _) => TransactAttach(hash, s, c)
    case Transition(_, _, _, _, _) => TransactTransition(hash, s, c)
    case RecordApproval(_, _, _, _, _, _) => TransactApproval(hash, s, c)
  }

  /** The store after a call: a failing call leaves every table as it was. */
  function Step(hash: ContentHash, s: Store, c: Call): Store {
    var t := Transact(hash, s, c);
    if t.Ok? then t.value.store else s
  }

  /** The answer the caller sees. */
  function Answer(hash: ContentHash, s: Store, c: Call): Result<Reply, Error> {
    var t := Transact(hash, s, c);
    if t.Ok? then Ok(t.value.reply) else Err(t.error)
  }

  /** The store after a whole sequence of calls. */
  function Run(hash: ContentHash, s: Store, calls: seq<Call>): Store {
    if calls == [] then s
    else Step(hash, Run(hash, s, calls[..|calls| - 1]), calls[|calls| - 1])
  }
}
