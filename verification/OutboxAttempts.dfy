/**
 The attempt limit.  The outbox does not promise it: an expired lease is claimed again without looking at the counter,
 and a limit may be lowered below a counter.  These are the only ways to exceed it.  A row comes to wait at its limit,
 from where the next claim exceeds it, in one way more: a worker decides to retry by an outdated limit.
 */
module OutboxAttempts {
  import opened Prelude
  import opened Outbox
  import opened OutboxRuns

  /** Every limit allows one attempt, as the table's own constraint demands. */
  predicate LimitsPositive(s: State) {
    forall e :: e in s.endpoints ==> s.endpoints[e].config.maxAttempts >= 1
  }

  predicate CountWithin(s: State, id: DeliveryId)
    requires id in s.deliveries
  {
    var d := s.deliveries[id];
    d.endpointId in s.endpoints ==> d.attemptCount <= s.endpoints[d.endpointId].config.maxAttempts
  }

  /** attempt_count <= max_attempts for every row of a registered endpoint. */
  predicate CountsWithin(s: State) {
    forall id :: id in s.deliveries ==> CountWithin(s, id)
  }

  predicate AtLimit(s: State, id: DeliveryId) {
    && id in s.deliveries && s.deliveries[id].endpointId in s.endpoints
    && s.deliveries[id].attemptCount >= s.endpoints[s.deliveries[id].endpointId].config.maxAttempts
  }

  /** The step claims a row whose attempts are used up, or lowers a limit below a counter. */
  predicate Overruns(s: State, step: Step) {
    match step
    case Claim(leases, _, _, _, _) => exists id :: id in leases && AtLimit(s, id)
    case UpdateEndpoint(e, config) =>
      && e in s.endpoints && ConfigAccepted(config)
      && exists id :: id in s.deliveries && s.deliveries[id].endpointId == e
                      && s.deliveries[id].attemptCount > config.maxAttempts
    case _ => false
  }

  lemma ClaimCounts(s: State, step: Step)
    requires Valid(s) && Enabled(s, step) && CountsWithin(s) && step.Claim?
    ensures CountsWithin(Apply(s, step)) <==> !Overruns(s, step)
  {
    hide Valid;
    var s' := Apply(s, step);
    if id :| id in step.leases && AtLimit(s, id) {
      assert s'.deliveries[id].attemptCount == s.deliveries[id].attemptCount + 1;
      assert !CountWithin(s', id);
    } else {
      forall id | id in s'.deliveries ensures CountWithin(s', id) {
        assert CountWithin(s, id);
      }
    }
  }

  lemma UpdateCounts(s: State, step: Step)
    requires Valid(s) && Enabled(s, step) && CountsWithin(s) && step.UpdateEndpoint?
    ensures CountsWithin(Apply(s, step)) <==> !Overruns(s, step)
  {
    hide Valid;
    var s' := Apply(s, step);
    if Overruns(s, step) {
      var id :| id in s.deliveries && s.deliveries[id].endpointId == step.endpoint
                && s.deliveries[id].attemptCount > step.config.maxAttempts;
      assert !CountWithin(s', id);
    } else {
      forall id | id in s'.deliveries ensures CountWithin(s', id) {
        assert CountWithin(s, id);
      }
    }
  }

  lemma EnqueueCounts(s: State, step: Step)
    requires Valid(s) && Enabled(s, step) && CountsWithin(s) && LimitsPositive(s) && step.Enqueue?
    ensures CountsWithin(Apply(s, step))
  {
    hide InsertAll, PairTaken, UniquePairs, UniqueTokens, Evicts;
    assert forall i :: i in s.deliveries ==> RowValid(s, i);
    InsertAllRows(s.deliveries, step.event, step.targets, step.freshIds, step.now);
    var s' := Apply(s, step);
    forall id | id in s'.deliveries ensures CountWithin(s', id) {
      assert id in s.deliveries ==> CountWithin(s, id);
    }
  }

  lemma OtherCounts(s: State, step: Step)
    requires Valid(s) && Enabled(s, step) && CountsWithin(s) && LimitsPositive(s)
    requires !step.Claim? && !step.UpdateEndpoint? && !step.Enqueue?
    ensures CountsWithin(Apply(s, step))
  {
    hide UniquePairs, UniqueTokens, PruneEligible;
    var s' := Apply(s, step);
    forall id | id in s'.deliveries ensures CountWithin(s', id) {
      assert RowValid(s, id) && CountWithin(s, id);
    }
  }

  lemma LimitsStayPositive(s: State, step: Step)
    requires Enabled(s, step) && LimitsPositive(s)
    ensures LimitsPositive(Apply(s, step))
  {
    hide InsertAll, LeasedRows, ReconciledRows;
  }

  /** A transaction keeps attempt_count <= max_attempts exactly when it is not one of the two. */
  lemma CountStep(s: State, step: Step)
    requires Valid(s) && Enabled(s, step) && CountsWithin(s) && LimitsPositive(s)
    ensures CountsWithin(Apply(s, step)) <==> !Overruns(s, step)
  {
    hide Valid, Enabled, Apply, CountsWithin;
    match step {
      case Claim(_, _, _, _, _) => ClaimCounts(s, step);
      case UpdateEndpoint(_, _) => UpdateCounts(s, step);
      case Enqueue(_, _, _, _, _, _) => EnqueueCounts(s, step);
      case _ => OtherCounts(s, step);
    }
  }

  lemma {:induction false} CountsUpTo(states: seq<State>, steps: seq<Step>, k: nat)
    requires Run(states, steps) && k < |states| && CountsWithin(states[0]) && LimitsPositive(states[0])
    ensures LimitsPositive(states[k])
    ensures (forall l :: 0 <= l <= k ==> CountsWithin(states[l]))
            <==> forall l :: 0 <= l < k ==> !Overruns(states[l], steps[l])
  {
    hide Valid, Enabled, Apply, CountsWithin, Overruns, LimitsPositive;
    if k > 0 {
      CountsUpTo(states, steps, k - 1);
      ValidThroughout(states, steps, k - 1);
      LimitsStayPositive(states[k - 1], steps[k - 1]);
      if CountsWithin(states[k - 1]) {
        CountStep(states[k - 1], steps[k - 1]);
      }
    }
  }

  /** Over every run: attempt_count <= max_attempts holds in every state exactly when no step is one of the two. */
  lemma CountsThroughout(states: seq<State>, steps: seq<Step>)
    requires Run(states, steps) && CountsWithin(states[0]) && LimitsPositive(states[0])
    ensures (forall k :: 0 <= k < |states| ==> CountsWithin(states[k]))
            <==> forall l :: 0 <= l < |steps| ==> !Overruns(states[l], steps[l])
  {
    hide Valid, Enabled, Apply, CountsWithin, Overruns, LimitsPositive;
    CountsUpTo(states, steps, |steps|);
  }

  // ---------------------------------------------------------------------------------
  // A row that exceeds its limit
  // ---------------------------------------------------------------------------------

  /** One row of an endpoint that allows one attempt, with the tokens issued so far. */
  function OneRow(row: Delivery, tokens: set<Token>): State {
    var endpoint := Endpoint(EndpointConfig(true, 1, 5, 1000), 0, false, None, None, None, None);
    State(map[2 := row], map[1 := endpoint], {2}, {1}, tokens)
  }

  function ClaimTwo(token: Token, now: Time): Step {
    Claim(map[2 := token], now, 100, 1, false)
  }

  lemma ClaimStep(row: Delivery, tokens: set<Token>, token: Token, now: Time)
    requires row.endpointId == 1 && token !in tokens
    requires ((row.status.Pending? && row.nextAttemptAt <= now)
              || (row.status.Delivering? && row.leaseExpiresAt.Some? && row.leaseExpiresAt.value <= now))
    ensures Enabled(OneRow(row, tokens), ClaimTwo(token, now))
    ensures Apply(OneRow(row, tokens), ClaimTwo(token, now)) == OneRow(Leased(row, token, now, 100), tokens + {token})
  {
    assert |map[2 := token]| == 1;
    assert (map[2 := token]).Values == {token};
  }

  const QUEUED := Fresh(7, 1, 0)
  const LEASED := Leased(QUEUED, 0, 0, 100)
  const LEASED_AGAIN := Leased(LEASED, 1, 100, 100)

  lemma OneRowCounts(row: Delivery, tokens: set<Token>)
    requires row.endpointId == 1
    ensures LimitsPositive(OneRow(row, tokens)) && (CountsWithin(OneRow(row, tokens)) <==> row.attemptCount <= 1)
    ensures 2 in OneRow(row, tokens).deliveries && OneRow(row, tokens).deliveries[2] == row
  {
    assert CountWithin(OneRow(row, tokens), 2) <==> row.attemptCount <= 1;
  }

  lemma QueuedIsValid()
    ensures Valid(OneRow(QUEUED, {}))
  {
    assert RowValid(OneRow(QUEUED, {}), 2);
  }

  lemma TwoSteps(s0: State, s1: State, s2: State, a: Step, b: Step)
    requires Valid(s0) && Enabled(s0, a) && Apply(s0, a) == s1 && Enabled(s1, b) && Apply(s1, b) == s2
    ensures Run([s0, s1, s2], [a, b])
  {
    hide Enabled, Apply, Valid;
    forall k | 0 <= k < 2
      ensures Enabled([s0, s1, s2][k], [a, b][k]) && [s0, s1, s2][k + 1] == Apply([s0, s1, s2][k], [a, b][k])
    {
      assert k == 0 || k == 1;
    }
  }

  /** Claimed, not completed, and claimed again when the lease has expired: two attempts where one is allowed. */
  lemma ReclaimExceeds()
    ensures var states := [OneRow(QUEUED, {}), OneRow(LEASED, {0}), OneRow(LEASED_AGAIN, {0, 1})];
            var steps := [ClaimTwo(0, 0), ClaimTwo(1, 100)];
            && Run(states, steps) && ClockMonotone(steps)
            && LimitsPositive(states[0]) && CountsWithin(states[0]) && CountsWithin(states[1])
            && 2 in states[2].deliveries && states[2].deliveries[2].attemptCount == 2 && !CountsWithin(states[2])
  {
    hide Enabled, Apply, Valid, Run, OneRow, LimitsPositive, CountsWithin;
    ClaimStep(QUEUED, {}, 0, 0);
    ClaimStep(LEASED, {0}, 1, 100);
    assert {} + {0} == {0} && {0} + {1} == {0, 1};
    QueuedIsValid();
    TwoSteps(OneRow(QUEUED, {}), OneRow(LEASED, {0}), OneRow(LEASED_AGAIN, {0, 1}), ClaimTwo(0, 0), ClaimTwo(1, 100));
    OneRowCounts(QUEUED, {});
    OneRowCounts(LEASED, {0});
    OneRowCounts(LEASED_AGAIN, {0, 1});
  }

  // ---------------------------------------------------------------------------------
  // How rows come to wait at their limit
  // ---------------------------------------------------------------------------------

  predicate IsWaiting(d: Delivery) {
    d.status.Pending? || d.status.Retry?
  }

  /** The row has attempts left when it waits, and at most as many as allowed in any case. */
  predicate FitsLimit(d: Delivery, max: int) {
    d.attemptCount <= max && (IsWaiting(d) ==> d.attemptCount < max)
  }

  /** Every row of a registered endpoint fits its limit, and every limit allows one attempt. */
  predicate WithinLimits(s: State) {
    && LimitsPositive(s)
    && (forall id :: id in s.deliveries && s.deliveries[id].endpointId in s.endpoints ==>
          FitsLimit(s.deliveries[id], s.endpoints[s.deliveries[id].endpointId].config.maxAttempts))
  }

  /** The step claims a row at its limit, leaves a row no room under a new limit, or retries a row at its limit. */
  predicate Exceeds(s: State, step: Step) {
    match step
    case Claim(leases, _, _, _, _) => exists id :: id in leases && AtLimit(s, id)
    case UpdateEndpoint(e, config) =>
      && e in s.endpoints && ConfigAccepted(config)
      && exists id :: id in s.deliveries && s.deliveries[id].endpointId == e
                      && !FitsLimit(s.deliveries[id], config.maxAttempts)
    case Complete(id, claimed, report, view, _, _) =>
      Completes(s, step) && CompletionStatus(claimed, report, view).Retry? && AtLimit(s, id)
    case _ => false
  }

  lemma ClaimLimits(s: State, step: Step)
    requires Valid(s) && Enabled(s, step) && WithinLimits(s) && step.Claim?
    ensures WithinLimits(Apply(s, step)) <==> !Exceeds(s, step)
  {
    hide Valid;
    var s' := Apply(s, step);
    if id :| id in step.leases && AtLimit(s, id) {
      assert s'.deliveries[id].attemptCount == s.deliveries[id].attemptCount + 1;
      assert !FitsLimit(s'.deliveries[id], s.endpoints[s'.deliveries[id].endpointId].config.maxAttempts);
    }
    forall id | id in s.deliveries
      ensures id in s'.deliveries && s'.deliveries[id].endpointId == s.deliveries[id].endpointId
    {
    }
  }

  lemma UpdateLimits(s: State, step: Step)
    requires Valid(s) && Enabled(s, step) && WithinLimits(s) && step.UpdateEndpoint?
    ensures WithinLimits(Apply(s, step)) <==> !Exceeds(s, step)
  {
    hide Valid, FitsLimit;
    var s' := Apply(s, step);
    if Exceeds(s, step) {
      var id :| id in s.deliveries && s.deliveries[id].endpointId == step.endpoint
                && !FitsLimit(s.deliveries[id], step.config.maxAttempts);
      assert s'.endpoints[step.endpoint].config == step.config;
      assert s'.deliveries[id] == s.deliveries[id];
    }
  }

  lemma CompleteLimits(s: State, step: Step)
    requires Valid(s) && Enabled(s, step) && WithinLimits(s) && step.Complete?
    ensures WithinLimits(Apply(s, step)) <==> !Exceeds(s, step)
  {
    hide Valid;
    var s' := Apply(s, step);
    assert s'.endpoints.Keys == s.endpoints.Keys;
    assert forall e :: e in s.endpoints ==> s'.endpoints[e].config == s.endpoints[e].config;
    if Exceeds(s, step) {
      assert IsWaiting(s'.deliveries[step.delivery]);
      assert !FitsLimit(s'.deliveries[step.delivery],
                        s'.endpoints[s'.deliveries[step.delivery].endpointId].config.maxAttempts);
    }
  }

  lemma CreateLimits(s: State, step: Step)
    requires Valid(s) && Enabled(s, step) && WithinLimits(s) && step.CreateEndpoint?
    ensures WithinLimits(Apply(s, step))
  {
    forall id | id in s.deliveries ensures s.deliveries[id].endpointId != step.endpoint {
      assert RowValid(s, id);
    }
  }

  lemma EnqueueLimits(s: State, step: Step)
    requires Valid(s) && Enabled(s, step) && WithinLimits(s) && step.Enqueue?
    ensures WithinLimits(Apply(s, step))
  {
    hide InsertAll, PairTaken, UniquePairs, UniqueTokens, Evicts;
    assert forall i :: i in s.deliveries ==> RowValid(s, i);
    InsertAllRows(s.deliveries, step.event, step.targets, step.freshIds, step.now);
  }

  lemma OtherLimits(s: State, step: Step)
    requires Valid(s) && Enabled(s, step) && WithinLimits(s)
    requires || step.DeleteEndpoint? || step.Replay? || step.RetryDelivery?
             || step.Reconcile? || step.Prune? || step.ResetCircuit?
    ensures WithinLimits(Apply(s, step))
  {
    hide Valid, PruneEligible;
  }

  /** A transaction leaves waiting rows an attempt, and all rows within their limits, unless it is one of the three. */
  lemma LimitStep(s: State, step: Step)
    requires Valid(s) && Enabled(s, step) && WithinLimits(s)
    ensures WithinLimits(Apply(s, step)) <==> !Exceeds(s, step)
  {
    hide Valid, Enabled, Apply, WithinLimits;
    match step {
      case Claim(_, _, _, _, _) => ClaimLimits(s, step);
      case UpdateEndpoint(_, _) => UpdateLimits(s, step);
      case Complete(_, _, _, _, _, _) => CompleteLimits(s, step);
      case CreateEndpoint(_, _) => CreateLimits(s, step);
      case Enqueue(_, _, _, _, _, _) => EnqueueLimits(s, step);
      case _ => OtherLimits(s, step);
    }
  }

  /** Over every run: the first row over its limit, or waiting at it, appears exactly with the first such step. */
  lemma {:induction false} LimitsThroughout(states: seq<State>, steps: seq<Step>, k: nat)
    requires Run(states, steps) && k < |states| && WithinLimits(states[0])
    requires forall l :: 0 <= l < k - 1 ==> !Exceeds(states[l], steps[l])
    ensures k > 0 ==> (WithinLimits(states[k]) <==> !Exceeds(states[k - 1], steps[k - 1]))
  {
    hide Valid, Enabled, Apply, WithinLimits, Exceeds;
    if k > 0 {
      LimitsThroughout(states, steps, k - 1);
      ValidThroughout(states, steps, k - 1);
      LimitStep(states[k - 1], steps[k - 1]);
    }
  }

  /** A worker that completes what it claimed, by the limit stored now, never is the cause. */
  lemma FaithfulWorker(s: State, step: Step)
    requires Valid(s) && Enabled(s, step) && step.Complete? && Completes(s, step)
    requires step.claimed == s.deliveries[step.delivery] && step.claimed.endpointId in s.endpoints
    requires step.view.Some? ==> step.view.value.maxAttempts == s.endpoints[step.claimed.endpointId].config.maxAttempts
    ensures !Exceeds(s, step)
  {
  }
}
