/** When looking at one closed row decides a cooldown as well as looking at all of them. */
module CampaignCooldown {
  import opened Prelude
  import opened AuditChain
  import opened CampaignStore
  import opened CampaignInvariants

  /** Some past campaign of the target is still cooling down. */
  ghost predicate StillCooling(rows: seq<Campaign>, target: string, now: int) {
    exists i | 0 <= i < |rows| :: CoolsTarget(rows[i], target) && rows[i].cooldownUntil.value > now
  }

  /** What the store looks at: one most recently updated row that carries a cooldown. */
  predicate LookupBlocks(rows: seq<Campaign>, target: string, now: int) {
    var closed := LatestCooldown(rows, target);
    closed.Some? && rows[closed.value].cooldownUntil.value > now
  }

  /** The most recently updated row holds the longest cooldown of its target. */
  ghost predicate LatestHoldsLongest(rows: seq<Campaign>, target: string) {
    var closed := LatestCooldown(rows, target);
    closed.Some? ==>
      forall i | 0 <= i < |rows| && CoolsTarget(rows[i], target) ::
        rows[i].cooldownUntil.value <= rows[closed.value].cooldownUntil.value
  }

  /** For any table, the lookup is exact at every instant if and only if the latest row holds the longest cooldown. */
  lemma LookupExactExactlyWhen(rows: seq<Campaign>, target: string)
    ensures (forall now :: LookupBlocks(rows, target, now) <==> StillCooling(rows, target, now))
            <==> LatestHoldsLongest(rows, target)
  {
    var closed := LatestCooldown(rows, target);
    if closed.Some? && !LatestHoldsLongest(rows, target) {
      var i :| 0 <= i < |rows| && CoolsTarget(rows[i], target)
            && rows[i].cooldownUntil.value > rows[closed.value].cooldownUntil.value;
      var now := rows[closed.value].cooldownUntil.value;
      assert StillCooling(rows, target, now) && !LookupBlocks(rows, target, now);
    }
  }

  // ---------------------------------------------------------------- runs on one clock

  function CooldownSeconds(q: Request): int {
    match q
    case Transition(_, _, _, _, seconds) => seconds
    case RecordApproval(_, _, _, _, _, seconds) => seconds
    case _ => 0
  }

  /** The clock never goes back and no cooldown is negative. */
  ghost predicate Orderly(calls: seq<Call>) {
    && (forall i, j | 0 <= i < j < |calls| :: calls[i].now <= calls[j].now)
    && (forall i | 0 <= i < |calls| :: CooldownSeconds(calls[i].request) >= 0)
  }

  /** `before` was over, cooldown included, when `after` was created. */
  predicate Succeeds(before: Campaign, after: Campaign) {
    && !IsOpen(before.state)
    && before.updatedAt <= after.createdAt
    && (before.cooldownUntil.Some? ==> before.cooldownUntil.value <= after.createdAt)
  }

  predicate Timely(row: Campaign, clock: int) {
    && row.createdAt <= row.updatedAt <= clock
    && (row.cooldownUntil.Some? ==> !IsOpen(row.state) && row.updatedAt < row.cooldownUntil.value)
  }

  /** Campaigns of one target follow one another in time; their rows stand in that order. */
  ghost predicate Chronicle(rows: seq<Campaign>, clock: int) {
    && (forall i | 0 <= i < |rows| :: Timely(rows[i], clock))
    && (forall i, j | 0 <= i < j < |rows| && rows[i].target == rows[j].target :: Succeeds(rows[i], rows[j]))
  }

  /** Whichever of the equally recent rows the database picks, the decision is the same and is exact. */
  lemma AnyTieBreakAgrees(rows: seq<Campaign>, clock: int, target: string, now: int, k: nat)
    requires Chronicle(rows, clock) && clock <= now
    requires IsLatestCooldown(rows, target, k)
    ensures rows[k].cooldownUntil.value > now <==> StillCooling(rows, target, now)
  {
    if StillCooling(rows, target, now) {
      var i :| 0 <= i < |rows| && CoolsTarget(rows[i], target) && rows[i].cooldownUntil.value > now;
      assert Timely(rows[i], clock) && Timely(rows[k], clock);
      if i < k {
        assert Succeeds(rows[i], rows[k]);
      } else if k < i {
        assert Succeeds(rows[k], rows[i]);
      }
    }
  }

  lemma LookupIsExact(rows: seq<Campaign>, clock: int, target: string, now: int)
    requires Chronicle(rows, clock) && clock <= now
    ensures LookupBlocks(rows, target, now) <==> StillCooling(rows, target, now)
  {
    var closed := LatestCooldown(rows, target);
    if closed.Some? {
      AnyTieBreakAgrees(rows, clock, target, now, closed.value);
    }
  }

  lemma StepKeepsChronicle(hash: ContentHash, s: Store, c: Call, clock: int)
    requires Sound(hash, s) && Chronicle(s.campaigns, clock)
    requires clock <= c.now && CooldownSeconds(c.request) >= 0
    ensures Chronicle(Step(hash, s, c).campaigns, c.now)
  {
    var t := Step(hash, s, c);
    assert forall i | 0 <= i < |s.campaigns| :: Timely(s.campaigns[i], clock);
    if Transact(hash, s, c).Ok? {
      EffectOf(hash, s, c);
      if Inserted(s, c, t) {
        var target := c.request.target;
        LookupIsExact(s.campaigns, clock, target, c.now);
        assert !StillCooling(s.campaigns, target, c.now);
        forall i | 0 <= i < |s.campaigns| && s.campaigns[i].target == target
          ensures Succeeds(s.campaigns[i], t.campaigns[|s.campaigns|])
        {
          assert Timely(s.campaigns[i], clock);
        }
      } else if !Reused(s, c, t) {
        var i: nat :| Rewrote(s, c, t, i);
        assert Timely(s.campaigns[i], clock);
        RewriteKeepsChronicle(hash, s, c, t, i, clock);
      }
    }
  }

  lemma RewriteKeepsChronicle(hash: ContentHash, s: Store, c: Call, t: Store, i: nat, clock: int)
    requires Sound(hash, s) && Chronicle(s.campaigns, clock) && Rewrote(s, c, t, i)
    requires clock <= c.now && CooldownSeconds(c.request) >= 0
    ensures Chronicle(t.campaigns, c.now)
  {
    forall j | 0 <= j < |t.campaigns| ensures Timely(t.campaigns[j], c.now) {
      assert Timely(s.campaigns[j], clock);
    }
    forall j, k | 0 <= j < k < |t.campaigns| && t.campaigns[j].target == t.campaigns[k].target
      ensures Succeeds(t.campaigns[j], t.campaigns[k])
    {
      assert Succeeds(s.campaigns[j], s.campaigns[k]);
    }
  }

  lemma {:induction false} OrderlyRunIsChronicle(hash: ContentHash, calls: seq<Call>, clock: int)
    requires Orderly(calls)
    requires calls != [] ==> calls[|calls| - 1].now <= clock
    ensures Chronicle(Run(hash, EMPTY, calls).campaigns, clock)
  {
    if calls != [] {
      var earlier, c := calls[..|calls| - 1], calls[|calls| - 1];
      OrderlyRunIsChronicle(hash, earlier, c.now);
      ReachableIsSound(hash, earlier);
      StepKeepsChronicle(hash, Run(hash, EMPTY, earlier), c, c.now);
      var rows := Run(hash, EMPTY, calls).campaigns;
      forall i | 0 <= i < |rows| ensures Timely(rows[i], clock) {
        assert Timely(rows[i], c.now);
      }
    }
  }

  /**
   * The cooldown promise, over every orderly run: a reservation that finds no
   * open campaign is turned away for cooling down exactly when some past
   * campaign of the target has a deadline still ahead.
   */
  lemma ReservationHonoursEveryCooldown(hash: ContentHash, calls: seq<Call>, c: Call)
    requires Orderly(calls + [c]) && c.request.Reserve?
    requires c.request.requiredApprovals >= 1 && (c.request.initialState.Open? || c.request.initialState.EvidenceAccumulating?)
    requires FindOpen(Run(hash, EMPTY, calls).campaigns, c.request.target).None?
    ensures var s := Run(hash, EMPTY, calls);
            var t := Transact(hash, s, c);
            (t.Err? && t.error.CoolingDown?) <==> StillCooling(s.campaigns, c.request.target, c.now)
  {
    var s := Run(hash, EMPTY, calls);
    var all := calls + [c];
    assert forall i | 0 <= i < |calls| :: all[i] == calls[i];
    assert all[|calls|] == c;
    OrderlyRunIsChronicle(hash, calls, c.now);
    LookupIsExact(s.campaigns, c.now, c.request.target, c.now);
  }
}
