/**
 The transactional outbox of packages/automation/src/outbound-webhook-postgres.ts as a
 state machine over two tables.  One SQL transaction is one atomic step.  What the
 environment chooses (generated uuids, the rows a `LIMIT ... SKIP LOCKED` query returns,
 the clock) is carried by the step; `Enabled` says which choices are possible and `Apply`
 what the transaction then does.
 */
module Outbox {
  import opened Prelude

  type DeliveryId = nat
  type EndpointId = nat
  type EventId = nat
  type Token = nat
  type Time = int

  datatype Status = Pending | Delivering | Retry | Succeeded | Exhausted {
    predicate Terminal() { Succeeded? || Exhausted? }
  }

  /** A row of webhook_deliveries. */
  datatype Delivery = Delivery(
    eventId: EventId,
    endpointId: EndpointId,
    status: Status,
    attemptCount: nat,
    manualRetryCount: nat,
    nextAttemptAt: Time,
    lastAttemptAt: Option<Time>,
    completedAt: Option<Time>,
    statusCode: Option<int>,
    lastError: Option<string>,
    leaseToken: Option<Token>,
    leaseExpiresAt: Option<Time>)

  /** The configurable columns of webhook_endpoints that the outbox reads. */
  datatype EndpointConfig = EndpointConfig(enabled: bool, maxAttempts: int, failureThreshold: int, cooldownMs: int)

  /** The CHECK constraints of webhook_endpoints; a write that violates them throws. */
  predicate ConfigAccepted(c: EndpointConfig) {
    1 <= c.maxAttempts <= 12 && 1 <= c.failureThreshold <= 100 && 1000 <= c.cooldownMs <= 86_400_000
  }

  /** A row of webhook_endpoints: configuration and circuit-breaker runtime. */
  datatype Endpoint = Endpoint(
    config: EndpointConfig,
    consecutiveFailures: nat,
    circuitOpen: bool,
    openedAt: Option<Time>,
    openUntil: Option<Time>,
    lastFailureAt: Option<Time>,
    lastSuccessAt: Option<Time>)

  /**
   The two tables, with the sets of uuids handed out so far: a generated uuid is one
   that was never handed out before.
   */
  datatype State = State(
    deliveries: map<DeliveryId, Delivery>,
    endpoints: map<EndpointId, Endpoint>,
    knownDeliveries: set<DeliveryId>,
    knownEndpoints: set<EndpointId>,
    issuedTokens: set<Token>)

  /** What a worker reports about one dispatch; `error` is already truncated to the stored length. */
  datatype Report = Report(success: bool, retryable: bool, statusCode: Option<int>, error: Option<string>)

  /** The endpoint object a worker holds when it completes a delivery. */
  datatype EndpointView = EndpointView(id: EndpointId, enabled: bool, maxAttempts: int)

  datatype Step =
    | CreateEndpoint(endpoint: EndpointId, config: EndpointConfig)
    | UpdateEndpoint(endpoint: EndpointId, config: EndpointConfig)
    | DeleteEndpoint(endpoint: EndpointId, now: Time)
    | Enqueue(event: EventId, targets: seq<EndpointId>, freshIds: seq<DeliveryId>, now: Time, limit: int,
              evicted: set<DeliveryId>)
    | Replay(chosen: set<DeliveryId>, now: Time, limit: int, dryRun: bool)
    | RetryDelivery(delivery: DeliveryId, now: Time)
    | Claim(leases: map<DeliveryId, Token>, now: Time, leaseMs: int, limit: int, bypassCircuit: bool)
    | Complete(delivery: DeliveryId, claimed: Delivery, report: Report, view: Option<EndpointView>, now: Time,
               baseRetryDelayMs: int)
    | Reconcile(chosen: set<DeliveryId>, now: Time, limit: int, dryRun: bool)
    | Prune(before: Time, ids: Option<set<DeliveryId>>, chosen: set<DeliveryId>, limit: int, dryRun: bool)
    | ResetCircuit(endpoint: EndpointId)

  /** The clock reading a step carries; endpoint edits, prune and reset write none that matters here. */
  function Now(step: Step): Option<Time> {
    match step
    case DeleteEndpoint(_, now) => Some(now)
    case Enqueue(_, _, _, now, _, _) => Some(now)
    case Replay(_, now, _, _) => Some(now)
    case RetryDelivery(_, now) => Some(now)
    case Claim(_, now, _, _, _) => Some(now)
    case Complete(_, _, _, _, now, _) => Some(now)
    case Reconcile(_, now, _, _) => Some(now)
    case _ => None
  }

  // ---------------------------------------------------------------------------------
  // Row updates
  // ---------------------------------------------------------------------------------

  const DELETED_MESSAGE := "Endpoint deleted before delivery"

  function Abandoned(d: Delivery, now: Time): Delivery {
    d.(status := Exhausted, completedAt := Some(now), lastError := Some(DELETED_MESSAGE),
       leaseToken := None, leaseExpiresAt := None)
  }

  function Fresh(event: EventId, endpoint: EndpointId, now: Time): Delivery {
    Delivery(event, endpoint, Pending, 0, 0, now, None, None, None, None, None, None)
  }

  function Requeued(d: Delivery, now: Time): Delivery {
    d.(status := Pending, attemptCount := 0, manualRetryCount := d.manualRetryCount + 1, nextAttemptAt := now,
       lastAttemptAt := None, completedAt := None, statusCode := None, lastError := None,
       leaseToken := None, leaseExpiresAt := None)
  }

  function Leased(d: Delivery, token: Token, now: Time, leaseMs: int): Delivery {
    d.(status := Delivering, attemptCount := d.attemptCount + 1, lastAttemptAt := Some(now),
       leaseToken := Some(token), leaseExpiresAt := Some(now + leaseMs))
  }

  function LeaseExpired(d: Delivery, now: Time): bool {
    d.leaseExpiresAt.None? || d.leaseExpiresAt.value <= now
  }

  /** Whether reconciliation sends an expired lease back to the queue. */
  predicate CanRetry(d: Delivery, endpoints: map<EndpointId, Endpoint>) {
    && d.endpointId in endpoints
    && endpoints[d.endpointId].config.enabled
    && d.attemptCount < endpoints[d.endpointId].config.maxAttempts
  }

  function ReconciliationError(canRetry: bool, endpointEnabled: bool): string {
    if canRetry then "Recovered expired worker lease"
    else if endpointEnabled then "Maximum delivery attempts reached during lease reconciliation"
    else "Endpoint missing or disabled during lease reconciliation"
  }

  function Reconciled(d: Delivery, endpoints: map<EndpointId, Endpoint>, now: Time): Delivery {
    var retry := CanRetry(d, endpoints);
    var enabled := d.endpointId in endpoints && endpoints[d.endpointId].config.enabled;
    d.(status := if retry then Retry else Exhausted, nextAttemptAt := now,
       completedAt := if retry then None else Some(now), lastError := Some(ReconciliationError(retry, enabled)),
       leaseToken := None, leaseExpiresAt := None)
  }

  /** The status the worker decides on, from its own snapshot of the row and of the endpoint. */
  function CompletionStatus(claimed: Delivery, report: Report, view: Option<EndpointView>): Status {
    if report.success then Succeeded
    else if !report.retryable || view.None? || claimed.attemptCount >= view.value.maxAttempts then Exhausted
    else Retry
  }

  const MAX_RETRY_DELAY_MS := 3_600_000

  /** Exponential backoff from the first attempt on, capped. */
  function RetryDelayMs(attemptCount: nat, base: int): int {
    var delay := base * Power2(if attemptCount == 0 then 0 else attemptCount - 1);
    if delay < MAX_RETRY_DELAY_MS then delay else MAX_RETRY_DELAY_MS
  }

  function Power2(n: nat): nat {
    if n == 0 then 1 else 2 * Power2(n - 1)
  }

  function Completed(d: Delivery, claimed: Delivery, report: Report, view: Option<EndpointView>, now: Time,
                     baseRetryDelayMs: int): Delivery {
    var status := CompletionStatus(claimed, report, view);
    d.(status := status,
       nextAttemptAt := if status.Retry? then now + RetryDelayMs(claimed.attemptCount, baseRetryDelayMs)
                        else claimed.nextAttemptAt,
       completedAt := if status.Terminal() then Some(now) else None,
       statusCode := report.statusCode, lastError := report.error,
       leaseToken := None, leaseExpiresAt := None)
  }

  function CircuitClosed(e: Endpoint): Endpoint {
    e.(consecutiveFailures := 0, circuitOpen := false, openedAt := None, openUntil := None)
  }

  function CircuitAfterFailure(e: Endpoint, now: Time): Endpoint {
    var trips := e.consecutiveFailures + 1 >= e.config.failureThreshold;
    e.(consecutiveFailures := e.consecutiveFailures + 1, circuitOpen := trips,
       openedAt := if trips then Some(now) else None,
       openUntil := if trips then Some(now + e.config.cooldownMs) else None,
       lastFailureAt := Some(now))
  }

  // ---------------------------------------------------------------------------------
  // Transactions
  // ---------------------------------------------------------------------------------

  /** `INSERT ... ON CONFLICT (event_id, endpoint_id) DO NOTHING`, one target after another. */
  function InsertAll(ds: map<DeliveryId, Delivery>, event: EventId, targets: seq<EndpointId>,
                     freshIds: seq<DeliveryId>, now: Time): map<DeliveryId, Delivery>
    requires |targets| == |freshIds|
  {
    if targets == [] then ds
    else
      var n := |targets| - 1;
      var before := InsertAll(ds, event, targets[..n], freshIds[..n], now);
      if PairTaken(before, event, targets[n]) then before
      else before[freshIds[n] := Fresh(event, targets[n], now)]
  }

  predicate PairTaken(ds: map<DeliveryId, Delivery>, event: EventId, endpoint: EndpointId) {
    exists id :: id in ds && ds[id].eventId == event && ds[id].endpointId == endpoint
  }

  function TerminalIds(ds: map<DeliveryId, Delivery>): set<DeliveryId> {
    set id | id in ds && ds[id].status.Terminal()
  }

  /** `ORDER BY completed_at ASC NULLS FIRST`. */
  predicate NoLater(a: Option<Time>, b: Option<Time>) {
    a.None? || (b.Some? && a.value <= b.value)
  }

  /** `evicted` is what the capacity `DELETE ... LIMIT excess` removes from `ds`. */
  predicate Evicts(ds: map<DeliveryId, Delivery>, limit: int, evicted: set<DeliveryId>) {
    var excess := |ds| - limit;
    if excess <= 0 then evicted == {}
    else
      && evicted <= TerminalIds(ds)
      && |evicted| == (if |TerminalIds(ds)| < excess then |TerminalIds(ds)| else excess)
      && forall e, r :: e in evicted && r in TerminalIds(ds) - evicted ==> NoLater(ds[e].completedAt, ds[r].completedAt)
  }

  /** The rows a claim query may return. */
  predicate Claimable(s: State, d: Delivery, now: Time, bypassCircuit: bool) {
    && (((d.status.Pending? || d.status.Retry?) && d.nextAttemptAt <= now)
        || (d.status.Delivering? && d.leaseExpiresAt.Some? && d.leaseExpiresAt.value <= now))
    && d.endpointId in s.endpoints
    && (bypassCircuit
        || !s.endpoints[d.endpointId].circuitOpen
        || s.endpoints[d.endpointId].openUntil.None?
        || s.endpoints[d.endpointId].openUntil.value <= now)
  }

  predicate Replayable(s: State, d: Delivery) {
    d.status.Exhausted? && d.endpointId in s.endpoints && s.endpoints[d.endpointId].config.enabled
  }

  /** The rows a prune query selects. */
  function PruneEligible(s: State, before: Time, ids: Option<set<DeliveryId>>): set<DeliveryId> {
    set id | id in s.deliveries && s.deliveries[id].status.Terminal()
             && s.deliveries[id].completedAt.Some? && s.deliveries[id].completedAt.value < before
             && (ids.Some? ==> id in ids.value)
  }

  /** Whether the guarded UPDATE of completeDelivery matches a row; `= NULL` matches none. */
  predicate Completes(s: State, step: Step)
    requires step.Complete?
  {
    && step.delivery in s.deliveries
    && s.deliveries[step.delivery].status.Delivering?
    && step.claimed.leaseToken.Some?
    && s.deliveries[step.delivery].leaseToken == step.claimed.leaseToken
  }

  /** A manual retry changes the row only from retry or exhausted, and only for an enabled endpoint. */
  predicate Retries(s: State, id: DeliveryId) {
    && id in s.deliveries
    && (s.deliveries[id].status.Retry? || s.deliveries[id].status.Exhausted?)
    && s.deliveries[id].endpointId in s.endpoints
    && s.endpoints[s.deliveries[id].endpointId].config.enabled
  }

  /** Which choices of the environment a step may carry. */
  predicate Enabled(s: State, step: Step) {
    match step
    case CreateEndpoint(id, _) => id !in s.knownEndpoints
    case Enqueue(event, targets, freshIds, now, limit, evicted) =>
      && |targets| == |freshIds| && Distinct(targets) && Distinct(freshIds)
      && (forall t :: t in targets ==> t in s.endpoints && s.endpoints[t].config.enabled)
      && (forall id :: id in freshIds ==> id !in s.knownDeliveries)
      && Evicts(InsertAll(s.deliveries, event, targets, freshIds, now), limit, evicted)
    case Replay(chosen, _, limit, _) =>
      |chosen| <= limit && forall id :: id in chosen ==> id in s.deliveries && Replayable(s, s.deliveries[id])
    case Claim(leases, now, _, limit, bypass) =>
      && |leases| <= limit
      && (forall id :: id in leases ==> id in s.deliveries && Claimable(s, s.deliveries[id], now, bypass))
      && (forall id :: id in leases ==> leases[id] !in s.issuedTokens)
      && (forall a, b :: a in leases && b in leases && a != b ==> leases[a] != leases[b])
    case Reconcile(chosen, _, limit, _) =>
      |chosen| <= limit && forall id :: id in chosen ==> id in s.deliveries && s.deliveries[id].status.Delivering?
    case Prune(before, ids, chosen, limit, _) =>
      var eligible := PruneEligible(s, before, ids);
      if ids.Some? then chosen == eligible else chosen <= eligible && |chosen| <= limit
    case _ => true
  }

  function ApplyEnqueue(s: State, event: EventId, targets: seq<EndpointId>, freshIds: seq<DeliveryId>, now: Time,
                        limit: int, evicted: set<DeliveryId>): State
    requires |targets| == |freshIds|
  {
    var inserted := InsertAll(s.deliveries, event, targets, freshIds, now);
    if |evicted| < |inserted| - limit then s
    else s.(deliveries := inserted - evicted, knownDeliveries := s.knownDeliveries + set id | id in freshIds)
  }

  function ApplyClaim(s: State, leases: map<DeliveryId, Token>, now: Time, leaseMs: int): State {
    s.(deliveries := LeasedRows(s.deliveries, leases, now, leaseMs), issuedTokens := s.issuedTokens + leases.Values)
  }

  function LeasedRows(ds: map<DeliveryId, Delivery>, leases: map<DeliveryId, Token>, now: Time, leaseMs: int)
    : map<DeliveryId, Delivery>
  {
    map id | id in ds :: if id in leases then Leased(ds[id], leases[id], now, leaseMs) else ds[id]
  }

  function ApplyReconcile(s: State, chosen: set<DeliveryId>, now: Time): State {
    s.(deliveries := ReconciledRows(s.deliveries, s.endpoints, chosen, now))
  }

  function ReconciledRows(ds: map<DeliveryId, Delivery>, endpoints: map<EndpointId, Endpoint>, chosen: set<DeliveryId>,
                          now: Time): map<DeliveryId, Delivery>
  {
    map id | id in ds ::
      if id in chosen && LeaseExpired(ds[id], now) then Reconciled(ds[id], endpoints, now) else ds[id]
  }

  function ApplyDeleteEndpoint(s: State, endpoint: EndpointId, now: Time): State {
    if endpoint !in s.endpoints then s
    else
      s.(deliveries := map id | id in s.deliveries ::
                         if s.deliveries[id].endpointId == endpoint && !s.deliveries[id].status.Terminal()
                         then Abandoned(s.deliveries[id], now) else s.deliveries[id],
         endpoints := s.endpoints - {endpoint})
  }

  /** The circuit update inside completeDelivery. */
  function EndpointsAfterCompletion(endpoints: map<EndpointId, Endpoint>, report: Report, view: Option<EndpointView>,
                                    now: Time): map<EndpointId, Endpoint> {
    if view.None? || view.value.id !in endpoints then endpoints
    else
      var id := view.value.id;
      if report.success then endpoints[id := CircuitClosed(endpoints[id]).(lastSuccessAt := Some(now))]
      else if view.value.enabled then endpoints[id := CircuitAfterFailure(endpoints[id], now)]
      else endpoints
  }

  function ApplyComplete(s: State, step: Step): State
    requires step.Complete?
  {
    if !Completes(s, step) then s
    else
      var row := s.deliveries[step.delivery];
      s.(deliveries := s.deliveries[step.delivery :=
           Completed(row, step.claimed, step.report, step.view, step.now, step.baseRetryDelayMs)],
         endpoints := EndpointsAfterCompletion(s.endpoints, step.report, step.view, step.now))
  }

  /** The whole effect of one transaction; a transaction that throws leaves the state as it was. */
  function Apply(s: State, step: Step): State
    requires Enabled(s, step)
  {
    match step
    case CreateEndpoint(id, config) =>
      if !ConfigAccepted(config) then s
      else s.(endpoints := s.endpoints[id := Endpoint(config, 0, false, None, None, None, None)],
         knownEndpoints := s.knownEndpoints + {id})
    case UpdateEndpoint(id, config) =>
      if id in s.endpoints && ConfigAccepted(config)
      then s.(endpoints := s.endpoints[id := s.endpoints[id].(config := config)]) else s
    case DeleteEndpoint(id, now) => ApplyDeleteEndpoint(s, id, now)
    case Enqueue(event, targets, freshIds, now, limit, evicted) =>
      ApplyEnqueue(s, event, targets, freshIds, now, limit, evicted)
    case Replay(chosen, now, _, dryRun) =>
      if dryRun then s
      else s.(deliveries := map id | id in s.deliveries ::
                              if id in chosen then Requeued(s.deliveries[id], now) else s.deliveries[id])
    case RetryDelivery(id, now) =>
      if Retries(s, id) then s.(deliveries := s.deliveries[id := Requeued(s.deliveries[id], now)]) else s
    case Claim(leases, now, leaseMs, _, _) => ApplyClaim(s, leases, now, leaseMs)
    case Complete(_, _, _, _, _, _) => ApplyComplete(s, step)
    case Reconcile(chosen, now, _, dryRun) => if dryRun then s else ApplyReconcile(s, chosen, now)
    case Prune(_, _, chosen, _, dryRun) => if dryRun then s else s.(deliveries := s.deliveries - chosen)
    case ResetCircuit(id) =>
      if id in s.endpoints && (s.endpoints[id].circuitOpen || s.endpoints[id].consecutiveFailures != 0)
      then s.(endpoints := s.endpoints[id := CircuitClosed(s.endpoints[id])]) else s
  }
}
