/**
 What each transaction of the outbox does to the stored rows, column by column and for every state: which rows it
 changes, what they then say, and that it changes no other.
 */
module OutboxRows {
  import opened Prelude
  import opened Outbox
  import opened OutboxRuns

  /** Every row other than `id` is as before. */
  predicate OthersKept(s: State, s': State, id: DeliveryId) {
    && s'.deliveries.Keys == s.deliveries.Keys
    && forall other :: other in s.deliveries && other != id ==> s'.deliveries[other] == s.deliveries[other]
  }

  // ---------------------------------------------------------------------------------
  // Completion
  // ---------------------------------------------------------------------------------

  /** The worker's token is the one under which the row is being delivered. */
  predicate OwnsLease(s: State, id: DeliveryId, claimed: Delivery) {
    && id in s.deliveries && s.deliveries[id].status.Delivering?
    && claimed.leaseToken.Some? && s.deliveries[id].leaseToken == claimed.leaseToken
  }

  /** A retryable failure of a delivery that has attempts left, as far as the worker knows. */
  predicate TriesAgain(claimed: Delivery, report: Report, view: Option<EndpointView>) {
    !report.success && report.retryable && view.Some? && claimed.attemptCount < view.value.maxAttempts
  }

  /** `row` is the delivery `d` after the report: succeeded, waiting for another attempt, or given up. */
  predicate SettledBy(d: Delivery, row: Delivery, claimed: Delivery, report: Report, view: Option<EndpointView>,
                      now: Time, baseRetryDelayMs: int) {
    && (row.status.Succeeded? <==> report.success)
    && (row.status.Retry? <==> TriesAgain(claimed, report, view))
    && (row.status.Exhausted? <==> !report.success && !TriesAgain(claimed, report, view))
    && (row.status.Retry? ==> row.nextAttemptAt == now + RetryDelayMs(claimed.attemptCount, baseRetryDelayMs))
    && (!row.status.Retry? ==> row.nextAttemptAt == claimed.nextAttemptAt)
    && row.completedAt == (if row.status.Retry? then None else Some(now))
    && row.statusCode == report.statusCode && row.lastError == report.error
    && row.leaseToken.None? && row.leaseExpiresAt.None?
    && row.eventId == d.eventId && row.endpointId == d.endpointId && row.lastAttemptAt == d.lastAttemptAt
    && row.attemptCount == d.attemptCount && row.manualRetryCount == d.manualRetryCount
  }

  /** A completion settles the row of the lease it owns, and without the lease changes nothing at all. */
  lemma CompletionEffect(s: State, step: Step)
    requires step.Complete?
    ensures var s' := Apply(s, step);
            if OwnsLease(s, step.delivery, step.claimed) then
              && OthersKept(s, s', step.delivery)
              && SettledBy(s.deliveries[step.delivery], s'.deliveries[step.delivery], step.claimed, step.report,
                           step.view, step.now, step.baseRetryDelayMs)
            else s' == s
  {
  }

  /** The delay before another attempt: the base at first, then doubled with every attempt, at most an hour. */
  lemma BackoffDoubles(attempts: nat, base: int)
    ensures RetryDelayMs(0, base) == RetryDelayMs(1, base) == if base < 3_600_000 then base else 3_600_000
    ensures attempts >= 1 ==>
              var twice := 2 * RetryDelayMs(attempts, base);
              RetryDelayMs(attempts + 1, base) == if twice < 3_600_000 then twice else 3_600_000
  {
    if attempts >= 1 {
      var p := Power2(attempts - 1);
      assert Power2(attempts) == 2 * p;
      assert base * (2 * p) == 2 * (base * p);
    }
  }

  /**
   Over every run: a worker that completes what it claimed settles the row by its counter as it is stored at that
   moment, however many other steps came in between.
   */
  lemma SnapshotDecision(states: seq<State>, steps: seq<Step>, i: nat, j: nat, id: DeliveryId)
    requires Run(states, steps) && i < j < |steps|
    requires steps[i].Claim? && id in steps[i].leases
    requires steps[j].Complete? && id in states[i + 1].deliveries && steps[j].claimed == states[i + 1].deliveries[id]
    requires states[j + 1] != states[j]
    ensures steps[j].delivery == id && id in states[j].deliveries && id in states[j + 1].deliveries
    ensures SettledBy(states[j].deliveries[id], states[j + 1].deliveries[id], states[j].deliveries[id],
                      steps[j].report, steps[j].view, steps[j].now, steps[j].baseRetryDelayMs)
  {
    hide Apply, SettledBy, Enabled;
    FencedThroughout(states, steps, i, i + 1, id);
    CompletionEffect(states[j], steps[j]);
    OwnsIsCompletes(states[j], steps[j]);
    LeaseFencing(states, steps, i, j, id);
  }

  lemma OwnsIsCompletes(s: State, step: Step)
    requires step.Complete?
    ensures OwnsLease(s, step.delivery, step.claimed) <==> Completes(s, step)
  {
  }

  // ---------------------------------------------------------------------------------
  // Reconciliation
  // ---------------------------------------------------------------------------------

  /** The endpoint of a row is registered, enabled, and allows it another attempt. */
  predicate MayGoOn(s: State, d: Delivery) {
    && d.endpointId in s.endpoints && s.endpoints[d.endpointId].config.enabled
    && d.attemptCount < s.endpoints[d.endpointId].config.maxAttempts
  }

  /**
   Reconciliation takes the lease from exactly the scanned rows whose lease is over.  Such a row is due again at once
   if its endpoint lets it go on, and given up otherwise.
   */
  lemma ReconcileEffect(s: State, step: Step, id: DeliveryId)
    requires Valid(s) && Enabled(s, step) && step.Reconcile? && id in s.deliveries
    ensures var s' := Apply(s, step);
            && s'.deliveries.Keys == s.deliveries.Keys && s'.endpoints == s.endpoints
            && var d, row := s.deliveries[id], s'.deliveries[id];
               if step.dryRun || id !in step.chosen || d.leaseExpiresAt.value > step.now then row == d
               else
                 && (row.status.Retry? <==> MayGoOn(s, d)) && (row.status.Exhausted? <==> !MayGoOn(s, d))
                 && row.nextAttemptAt == step.now
                 && row.completedAt == (if MayGoOn(s, d) then None else Some(step.now))
                 && row.lastError.Some? && row.leaseToken.None? && row.leaseExpiresAt.None?
                 && row == d.(status := row.status, nextAttemptAt := row.nextAttemptAt, lastError := row.lastError,
                              completedAt := row.completedAt, leaseToken := None, leaseExpiresAt := None)
  {
    hide UniquePairs, UniqueTokens;
    assert RowValid(s, id);
  }

  // ---------------------------------------------------------------------------------
  // Requeueing
  // ---------------------------------------------------------------------------------

  /** `row` is `d` sent from the start once more by hand, due at `now`. */
  predicate StartsOver(d: Delivery, row: Delivery, now: Time) {
    row == Delivery(
             d.eventId, d.endpointId, Pending, 0, d.manualRetryCount + 1, now, None, None, None, None, None, None)
  }

  predicate EndpointServes(s: State, d: Delivery) {
    d.endpointId in s.endpoints && s.endpoints[d.endpointId].config.enabled
  }

  /** A manual retry starts a waiting-for-retry or exhausted row over, for an enabled endpoint, and nothing else. */
  lemma RetryEffect(s: State, step: Step)
    requires step.RetryDelivery?
    ensures var s', id := Apply(s, step), step.delivery;
            if id in s.deliveries && s.deliveries[id].status in {Retry, Exhausted}
               && EndpointServes(s, s.deliveries[id]) then
              && OthersKept(s, s', id) && StartsOver(s.deliveries[id], s'.deliveries[id], step.now)
              && s'.endpoints == s.endpoints
            else s' == s
  {
  }

  /** A replay starts exactly the chosen rows over, and only dead letters of an enabled endpoint can be chosen. */
  lemma ReplayEffect(s: State, step: Step, id: DeliveryId)
    requires Enabled(s, step) && step.Replay? && id in s.deliveries
    ensures var s' := Apply(s, step);
            && s'.deliveries.Keys == s.deliveries.Keys && s'.endpoints == s.endpoints
            && (id in step.chosen ==> s.deliveries[id].status.Exhausted? && EndpointServes(s, s.deliveries[id]))
            && if !step.dryRun && id in step.chosen
               then StartsOver(s.deliveries[id], s'.deliveries[id], step.now)
               else s'.deliveries[id] == s.deliveries[id]
  {
  }

  /** And each of them can. */
  lemma AnyDeadLetterReplays(s: State, id: DeliveryId, now: Time)
    requires id in s.deliveries && s.deliveries[id].status.Exhausted? && EndpointServes(s, s.deliveries[id])
    ensures Enabled(s, Replay({id}, now, 1, false))
  {
  }

  // ---------------------------------------------------------------------------------
  // Claiming
  // ---------------------------------------------------------------------------------

  /** Waiting and due, or left behind by a worker whose lease is over. */
  predicate Due(d: Delivery, now: Time) {
    || (d.status in {Pending, Retry} && d.nextAttemptAt <= now)
    || (d.status.Delivering? && d.leaseExpiresAt.Some? && d.leaseExpiresAt.value <= now)
  }

  /** The endpoint is registered, and its circuit closed, cooled down or bypassed. */
  predicate Reachable(s: State, e: EndpointId, now: Time, bypassCircuit: bool) {
    && e in s.endpoints
    && (s.endpoints[e].circuitOpen && s.endpoints[e].openUntil.Some? && s.endpoints[e].openUntil.value > now
        ==> bypassCircuit)
  }

  /** Some claim at that time can take the row. */
  ghost predicate CanBeClaimed(s: State, id: DeliveryId, now: Time, bypassCircuit: bool) {
    exists leases, leaseMs, limit :: id in leases && Enabled(s, Claim(leases, now, leaseMs, limit, bypassCircuit))
  }

  lemma {:induction false} FreshToken(used: set<Token>) returns (token: Token)
    ensures forall t :: t in used ==> t < token
  {
    token := 0;
    if used != {} {
      var t :| t in used;
      var rest := FreshToken(used - {t});
      token := if t < rest then rest else t + 1;
      assert forall u :: u in used ==> u == t || u in used - {t};
    }
  }

  /** A claim can take exactly the rows that are due and whose endpoint is reachable. */
  lemma ClaimableExactly(s: State, id: DeliveryId, now: Time, bypassCircuit: bool)
    requires id in s.deliveries
    ensures CanBeClaimed(s, id, now, bypassCircuit) <==>
              Due(s.deliveries[id], now) && Reachable(s, s.deliveries[id].endpointId, now, bypassCircuit)
  {
    if Due(s.deliveries[id], now) && Reachable(s, s.deliveries[id].endpointId, now, bypassCircuit) {
      var token := FreshToken(s.issuedTokens);
      var leases := map[id := token];
      assert id in leases && Enabled(s, Claim(leases, now, 0, 1, bypassCircuit));
    }
  }

  /** A claim leases exactly its rows, each under its own token, and counts the attempt. */
  lemma ClaimEffect(s: State, step: Step, id: DeliveryId)
    requires Enabled(s, step) && step.Claim? && id in s.deliveries
    ensures var s' := Apply(s, step);
            && s'.deliveries.Keys == s.deliveries.Keys && s'.endpoints == s.endpoints
            && var d, row := s.deliveries[id], s'.deliveries[id];
               if id !in step.leases then row == d
               else
                 && row.status.Delivering? && row.leaseToken == Some(step.leases[id])
                 && row.leaseExpiresAt == Some(step.now + step.leaseMs) && row.lastAttemptAt == Some(step.now)
                 && row.attemptCount == d.attemptCount + 1
                 && row == d.(status := Delivering, attemptCount := row.attemptCount, leaseToken := row.leaseToken,
                              lastAttemptAt := row.lastAttemptAt, leaseExpiresAt := row.leaseExpiresAt)
  {
  }

  // ---------------------------------------------------------------------------------
  // Enqueueing and deleting
  // ---------------------------------------------------------------------------------

  /** The row of a delivery that nobody has tried yet. */
  predicate Untried(row: Delivery, event: EventId, endpoint: EndpointId, now: Time) {
    row == Delivery(event, endpoint, Pending, 0, 0, now, None, None, None, None, None, None)
  }

  /** A row after an enqueue is an old one, or untried, due at once, and for a target whose pair was free. */
  lemma EnqueueEffect(s: State, step: Step, id: DeliveryId)
    requires Valid(s) && Enabled(s, step) && step.Enqueue? && id in Apply(s, step).deliveries
    ensures var row := Apply(s, step).deliveries[id];
            if id in s.deliveries then row == s.deliveries[id]
            else row.endpointId in step.targets && Untried(row, step.event, row.endpointId, step.now)
  {
    hide UniqueTokens, UniquePairs, Evicts, PairTaken, InsertAll;
    assert forall i :: i in s.deliveries ==> RowValid(s, i);
    InsertAllRows(s.deliveries, step.event, step.targets, step.freshIds, step.now);
  }

  /** The targets that have no row for the event yet. */
  function FreeTargets(ds: map<DeliveryId, Delivery>, event: EventId, targets: seq<EndpointId>): set<EndpointId> {
    set t | t in targets && !PairTaken(ds, event, t)
  }

  function ActiveIds(ds: map<DeliveryId, Delivery>): set<DeliveryId> {
    set id | id in ds && !ds[id].status.Terminal()
  }

  lemma StillFree(ds: map<DeliveryId, Delivery>, before: map<DeliveryId, Delivery>, event: EventId,
                  targets: seq<EndpointId>, freshIds: seq<DeliveryId>, now: Time, t: EndpointId)
    requires Inserted(ds, before, event, targets, freshIds, now) && t !in targets
    ensures PairTaken(before, event, t) <==> PairTaken(ds, event, t)
  {
    hide UniquePairs;
    if PairTaken(ds, event, t) {
      var id :| id in ds && ds[id].eventId == event && ds[id].endpointId == t;
      assert before[id] == ds[id];
    }
  }

  lemma OneMoreTarget(ds: map<DeliveryId, Delivery>, event: EventId, targets: seq<EndpointId>, t: EndpointId)
    requires t !in targets
    ensures |FreeTargets(ds, event, targets + [t])|
         == |FreeTargets(ds, event, targets)| + if PairTaken(ds, event, t) then 0 else 1
  {
    hide PairTaken;
    assert FreeTargets(ds, event, targets + [t])
        == FreeTargets(ds, event, targets) + if PairTaken(ds, event, t) then {} else {t};
  }

  lemma OneMoreRow(ds: map<DeliveryId, Delivery>, id: DeliveryId, event: EventId, t: EndpointId, now: Time)
    requires id !in ds
    ensures |ds[id := Fresh(event, t, now)]| == |ds| + 1
    ensures TerminalIds(ds[id := Fresh(event, t, now)]) == TerminalIds(ds)
  {
    assert ds[id := Fresh(event, t, now)].Keys == ds.Keys + {id};
  }

  /** The inserts add a row per free target, and none of them is terminal. */
  lemma {:induction false} InsertedCount(ds: map<DeliveryId, Delivery>, event: EventId, targets: seq<EndpointId>,
                                         freshIds: seq<DeliveryId>, now: Time)
    requires |targets| == |freshIds| && Distinct(targets) && Distinct(freshIds)
    requires forall id :: id in freshIds ==> id !in ds
    ensures var r := InsertAll(ds, event, targets, freshIds, now);
            |r| == |ds| + |FreeTargets(ds, event, targets)| && TerminalIds(r) == TerminalIds(ds)
  {
    hide PairTaken, Inserted, TerminalIds, Fresh, FreeTargets;
    if targets == [] {
      NoFreeTargets(ds, event);
    } else {
      var n := |targets| - 1;
      var before, id := InsertAll(ds, event, targets[..n], freshIds[..n], now), freshIds[n];
      InsertedCount(ds, event, targets[..n], freshIds[..n], now);
      InsertAllRows(ds, event, targets[..n], freshIds[..n], now);
      assert targets[n] !in targets[..n] && id !in freshIds[..n];
      StillFree(ds, before, event, targets[..n], freshIds[..n], now, targets[n]);
      NotInserted(ds, before, event, targets[..n], freshIds[..n], now, id);
      assert targets == targets[..n] + [targets[n]];
      OneMoreTarget(ds, event, targets[..n], targets[n]);
      OneMoreRow(before, id, event, targets[n], now);
    }
  }

  lemma NoFreeTargets(ds: map<DeliveryId, Delivery>, event: EventId)
    ensures FreeTargets(ds, event, []) == {}
  {
  }

  lemma NotInserted(ds: map<DeliveryId, Delivery>, r: map<DeliveryId, Delivery>, event: EventId,
                    targets: seq<EndpointId>, freshIds: seq<DeliveryId>, now: Time, id: DeliveryId)
    requires Inserted(ds, r, event, targets, freshIds, now) && id !in ds && id !in freshIds
    ensures id !in r
  {
  }

  /**
   An enqueue is refused, and changes nothing, exactly when the rows that may not be evicted would not fit: those not
   settled yet and the new ones.  Otherwise every free target gets its row.
   */
  lemma EnqueueFits(s: State, step: Step)
    requires Valid(s) && Enabled(s, step) && step.Enqueue?
    ensures var needed := |ActiveIds(s.deliveries)| + |FreeTargets(s.deliveries, step.event, step.targets)|;
            if needed > step.limit then Apply(s, step) == s
            else forall t :: t in FreeTargets(s.deliveries, step.event, step.targets) ==>
                   PairTaken(Apply(s, step).deliveries, step.event, t)
  {
    hide UniquePairs, UniqueTokens, PairTaken, InsertAll, RowValid, Evicts, ActiveIds, TerminalIds;
    var ds := s.deliveries;
    FreshAreNew(s, step);
    InsertedCount(ds, step.event, step.targets, step.freshIds, step.now);
    var inserted := InsertAll(ds, step.event, step.targets, step.freshIds, step.now);
    SettledOrNot(ds);
    EvictedCount(inserted, step.limit, step.evicted);
    if |ActiveIds(ds)| + |FreeTargets(ds, step.event, step.targets)| <= step.limit {
      forall t | t in FreeTargets(ds, step.event, step.targets)
        ensures PairTaken(Apply(s, step).deliveries, step.event, t)
      {
        InsertAllRows(ds, step.event, step.targets, step.freshIds, step.now);
        var id := FreshRowFor(ds, inserted, step.event, step.targets, step.freshIds, step.now, t);
        RowTakesPair(inserted - step.evicted, id, step.event, t, step.now);
      }
    }
  }

  lemma SettledOrNot(ds: map<DeliveryId, Delivery>)
    ensures |ds| == |ActiveIds(ds)| + |TerminalIds(ds)|
  {
    assert ds.Keys == ActiveIds(ds) + TerminalIds(ds);
    assert ActiveIds(ds) !! TerminalIds(ds);
  }

  lemma FreshAreNew(s: State, step: Step)
    requires Valid(s) && Enabled(s, step) && step.Enqueue?
    ensures forall id :: id in step.freshIds ==> id !in s.deliveries
  {
    hide UniquePairs, UniqueTokens, Evicts, InsertAll;
    forall id | id in step.freshIds ensures id !in s.deliveries {
      assert id in s.deliveries ==> RowValid(s, id);
    }
  }

  lemma EvictedCount(ds: map<DeliveryId, Delivery>, limit: int, evicted: set<DeliveryId>)
    requires Evicts(ds, limit, evicted)
    ensures |evicted| < |ds| - limit <==> |TerminalIds(ds)| < |ds| - limit
    ensures forall id :: id in evicted ==> id in ds && ds[id].status.Terminal()
  {
  }

  lemma RowTakesPair(ds: map<DeliveryId, Delivery>, id: DeliveryId, event: EventId, t: EndpointId, now: Time)
    requires id in ds && ds[id] == Fresh(event, t, now)
    ensures PairTaken(ds, event, t)
  {
  }

  /** The rows that make room are the terminal ones that completed first. */
  lemma EvictsOldest(s: State, step: Step, gone: DeliveryId, kept: DeliveryId)
    requires Valid(s) && Enabled(s, step) && step.Enqueue?
    requires gone in s.deliveries && gone !in Apply(s, step).deliveries
    requires kept in Apply(s, step).deliveries && kept in s.deliveries && s.deliveries[kept].completedAt.Some?
    ensures s.deliveries[gone].completedAt.Some?
    ensures s.deliveries[gone].completedAt.value <= s.deliveries[kept].completedAt.value
  {
    hide UniqueTokens, UniquePairs, PairTaken, InsertAll, Fresh;
    assert forall i :: i in s.deliveries ==> RowValid(s, i);
    InsertAllRows(s.deliveries, step.event, step.targets, step.freshIds, step.now);
  }

  /** And no more go than needed. */
  lemma EvictsOnlyExcess(s: State, step: Step, gone: DeliveryId)
    requires Valid(s) && Enabled(s, step) && step.Enqueue?
    requires gone in s.deliveries && gone !in Apply(s, step).deliveries
    ensures |Apply(s, step).deliveries| == step.limit
  {
    hide UniqueTokens, UniquePairs, PairTaken, InsertAll, Fresh, RowValid;
    var inserted := InsertAll(s.deliveries, step.event, step.targets, step.freshIds, step.now);
    assert step.evicted <= inserted.Keys;
    if step.evicted == {} {
      NothingEvicted(s, step, gone);
    }
    RemovalSize(inserted, step.evicted);
  }

  lemma NothingEvicted(s: State, step: Step, id: DeliveryId)
    requires Valid(s) && Enabled(s, step) && step.Enqueue? && step.evicted == {} && id in s.deliveries
    ensures id in Apply(s, step).deliveries
  {
    hide UniqueTokens, UniquePairs, PairTaken, InsertAll, Fresh, Evicts;
    assert forall i :: i in s.deliveries ==> RowValid(s, i);
    InsertAllRows(s.deliveries, step.event, step.targets, step.freshIds, step.now);
  }

  /** Deleting an endpoint settles exactly its unsettled rows, as exhausted, and removes the endpoint alone. */
  lemma DeleteEffect(s: State, step: Step, id: DeliveryId)
    requires Valid(s) && step.DeleteEndpoint? && id in s.deliveries
    ensures var s' := Apply(s, step);
            && s'.deliveries.Keys == s.deliveries.Keys && s'.endpoints == s.endpoints - {step.endpoint}
            && var d, row := s.deliveries[id], s'.deliveries[id];
               if d.endpointId != step.endpoint || step.endpoint !in s.endpoints || d.completedAt.Some? then row == d
               else
                 && row.status.Exhausted? && row.completedAt == Some(step.now)
                 && row.leaseToken.None? && row.leaseExpiresAt.None? && row.lastError.Some?
                 && row == d.(status := Exhausted, completedAt := row.completedAt, lastError := row.lastError,
                              leaseToken := None, leaseExpiresAt := None)
  {
    hide UniqueTokens, UniquePairs;
    assert RowValid(s, id);
    assert s.endpoints - {step.endpoint} == if step.endpoint in s.endpoints then s.endpoints - {step.endpoint}
                                            else s.endpoints;
  }

  /** A prune of an exact set removes exactly its settled rows from before the cutoff. */
  lemma PruneEffect(s: State, step: Step, id: DeliveryId)
    requires Enabled(s, step) && step.Prune? && id in s.deliveries
    ensures var s' := Apply(s, step);
            var stale := s.deliveries[id].status.Terminal() && s.deliveries[id].completedAt.Some?
                         && s.deliveries[id].completedAt.value < step.before;
            && s'.endpoints == s.endpoints && s'.deliveries.Keys <= s.deliveries.Keys
            && (id in s'.deliveries ==> s'.deliveries[id] == s.deliveries[id])
            && (id !in s'.deliveries ==> stale && !step.dryRun)
            && (step.ids.Some? ==>
                  (id !in s'.deliveries <==> stale && !step.dryRun && id in step.ids.value))
            && (step.ids.None? ==> (id in step.chosen ==> stale)
                                   && (id !in s'.deliveries <==> !step.dryRun && id in step.chosen))
  {
  }

  // ---------------------------------------------------------------------------------
  // Endpoints
  // ---------------------------------------------------------------------------------

  /** A circuit without failures; the times of the last success and failure are kept apart from it. */
  predicate Closed(e: Endpoint) {
    e.consecutiveFailures == 0 && !e.circuitOpen && e.openedAt.None? && e.openUntil.None?
  }

  /** `e'` is `e` after one more failure at `now`: open for the cooldown once there are enough. */
  predicate FailedOnceMore(e: Endpoint, e': Endpoint, now: Time) {
    && e'.consecutiveFailures == e.consecutiveFailures + 1
    && (e'.circuitOpen <==> e.consecutiveFailures + 1 >= e.config.failureThreshold)
    && e'.openedAt == (if e'.circuitOpen then Some(now) else None)
    && e'.openUntil == (if e'.circuitOpen then Some(now + e.config.cooldownMs) else None)
    && e'.lastFailureAt == Some(now) && e'.lastSuccessAt == e.lastSuccessAt && e'.config == e.config
  }

  /** What each transaction does to an endpoint that is there before and after it. */
  lemma EndpointEffect(s: State, step: Step, e: EndpointId)
    requires Valid(s) && Enabled(s, step) && e in s.endpoints && e in Apply(s, step).endpoints
    ensures var before, after := s.endpoints[e], Apply(s, step).endpoints[e];
            if ReportsOn(s, step, e) && step.report.success then
              Closed(after) && after.lastSuccessAt == Some(step.now) && after.lastFailureAt == before.lastFailureAt
              && after.config == before.config
            else if ReportsOn(s, step, e) && step.view.value.enabled then FailedOnceMore(before, after, step.now)
            else if step.ResetCircuit? && step.endpoint == e && (before.circuitOpen || before.consecutiveFailures != 0)
            then
              Closed(after) && after.lastSuccessAt == before.lastSuccessAt
              && after.lastFailureAt == before.lastFailureAt && after.config == before.config
            else if step.UpdateEndpoint? && step.endpoint == e && ConfigAccepted(step.config)
            then after == before.(config := step.config)
            else after == before
  {
    hide RowValid, UniquePairs, UniqueTokens, InsertAll, LeasedRows, ReconciledRows, Completed;
  }

  /** Endpoint edits touch one configuration and no row; an edit that breaks a constraint changes nothing. */
  lemma ConfigEffect(s: State, step: Step, e: EndpointId)
    requires Enabled(s, step) && (step.CreateEndpoint? || step.UpdateEndpoint?)
    ensures var s' := Apply(s, step);
            var effective := ConfigAccepted(step.config) && (step.CreateEndpoint? || step.endpoint in s.endpoints);
            && s'.deliveries == s.deliveries
            && (effective ==> s'.endpoints.Keys == s.endpoints.Keys + {step.endpoint})
            && (effective && e == step.endpoint ==> s'.endpoints[e].config == step.config)
            && (e in s.endpoints && (e != step.endpoint || !effective) ==>
                  e in s'.endpoints && s'.endpoints[e] == s.endpoints[e])
  {
  }
}
