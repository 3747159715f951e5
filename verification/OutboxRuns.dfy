/**
 What every run of the outbox keeps: the table invariants, lease fencing, lease spacing,
 repeatable pruning, the capacity bound and the circuit breaker.
 */
module OutboxRuns {
  import opened Prelude
  import opened Outbox

  // ---------------------------------------------------------------------------------
  // Table invariants
  // ---------------------------------------------------------------------------------

  /** The column agreement every row keeps. */
  predicate RowValid(s: State, id: DeliveryId)
    requires id in s.deliveries
  {
    var d := s.deliveries[id];
    && id in s.knownDeliveries
    && d.endpointId in s.knownEndpoints
    && (d.status.Delivering? <==> d.leaseToken.Some?)
    && (d.leaseToken.Some? <==> d.leaseExpiresAt.Some?)
    && (d.status.Terminal() <==> d.completedAt.Some?)
    && (d.leaseToken.Some? ==> d.leaseToken.value in s.issuedTokens)
  }

  predicate UniquePairs(ds: map<DeliveryId, Delivery>) {
    forall a, b :: a in ds && b in ds && ds[a].eventId == ds[b].eventId && ds[a].endpointId == ds[b].endpointId
                   ==> a == b
  }

  predicate UniqueTokens(ds: map<DeliveryId, Delivery>) {
    forall a, b :: a in ds && b in ds && ds[a].leaseToken.Some? && ds[a].leaseToken == ds[b].leaseToken ==> a == b
  }

  predicate Valid(s: State) {
    && (forall id :: id in s.deliveries ==> RowValid(s, id))
    && UniquePairs(s.deliveries)
    && UniqueTokens(s.deliveries)
    && s.endpoints.Keys <= s.knownEndpoints
  }

  /** `r` is `ds` with fresh rows for those targets whose pair was not taken. */
  predicate Inserted(ds: map<DeliveryId, Delivery>, r: map<DeliveryId, Delivery>, event: EventId,
                     targets: seq<EndpointId>, freshIds: seq<DeliveryId>, now: Time) {
    && (forall id :: id in ds ==> id in r && r[id] == ds[id])
    && (forall id :: id in r && id !in ds ==>
          id in freshIds && r[id].endpointId in targets && r[id] == Fresh(event, r[id].endpointId, now))
    && (forall t :: t in targets ==> PairTaken(r, event, t))
    && (UniquePairs(ds) ==> UniquePairs(r))
  }

  /** Inserting one fresh row for a pair that is not taken yet. */
  lemma InsertOneRow(ds: map<DeliveryId, Delivery>, event: EventId, target: EndpointId, id: DeliveryId, now: Time)
    requires id !in ds
    ensures var r := if PairTaken(ds, event, target) then ds else ds[id := Fresh(event, target, now)];
            && PairTaken(r, event, target)
            && (forall t :: PairTaken(ds, event, t) ==> PairTaken(r, event, t))
            && (UniquePairs(ds) ==> UniquePairs(r))
  {
    var r := if PairTaken(ds, event, target) then ds else ds[id := Fresh(event, target, now)];
    forall t | PairTaken(ds, event, t) ensures PairTaken(r, event, t) {
      var k :| k in ds && ds[k].eventId == event && ds[k].endpointId == t;
      assert r[k] == ds[k];
    }
    assert id in r ==> r[id] == r[id];
  }

  lemma InsertedStep(ds: map<DeliveryId, Delivery>, before: map<DeliveryId, Delivery>, event: EventId,
                     targets: seq<EndpointId>, freshIds: seq<DeliveryId>, t: EndpointId, id: DeliveryId, now: Time)
    requires Inserted(ds, before, event, targets, freshIds, now) && id !in ds && id !in freshIds
    ensures Inserted(ds, if PairTaken(before, event, t) then before else before[id := Fresh(event, t, now)], event,
                     targets + [t], freshIds + [id], now)
  {
    hide UniquePairs, PairTaken;
    InsertOneRow(before, event, t, id, now);
  }

  lemma NothingInserted(ds: map<DeliveryId, Delivery>, event: EventId, now: Time)
    ensures Inserted(ds, ds, event, [], [], now)
  {
  }

  /** Every row after a batch of inserts is an old row or a fresh one for a listed target. */
  lemma {:induction false} InsertAllRows(ds: map<DeliveryId, Delivery>, event: EventId, targets: seq<EndpointId>,
                                         freshIds: seq<DeliveryId>, now: Time)
    requires |targets| == |freshIds|
    requires forall id :: id in freshIds ==> id !in ds
    requires Distinct(freshIds)
    ensures Inserted(ds, InsertAll(ds, event, targets, freshIds, now), event, targets, freshIds, now)
  {
    hide Inserted, PairTaken, UniquePairs, Fresh;
    if targets == [] {
      NothingInserted(ds, event, now);
    } else {
      var n := |targets| - 1;
      InsertAllRows(ds, event, targets[..n], freshIds[..n], now);
      var before := InsertAll(ds, event, targets[..n], freshIds[..n], now);
      assert freshIds[n] !in freshIds[..n];
      InsertedStep(ds, before, event, targets[..n], freshIds[..n], targets[n], freshIds[n], now);
      assert targets == targets[..n] + [targets[n]] && freshIds == freshIds[..n] + [freshIds[n]];
    }
  }

  // ---------------------------------------------------------------------------------
  // What one transaction may do to one row
  // ---------------------------------------------------------------------------------

  /** The lease of row `id` ends (or it never had one) and the row is queued again or settled at the step's time. */
  predicate Released(s: State, step: Step, id: DeliveryId, d: Delivery, d': Delivery) {
    && d'.eventId == d.eventId && d'.endpointId == d.endpointId
    && !d.status.Succeeded?
    && !d'.status.Delivering? && d'.leaseToken.None? && d'.leaseExpiresAt.None?
    && (d'.status.Terminal() <==> d'.completedAt.Some?)
    && (d'.completedAt.Some? ==> Now(step) == d'.completedAt)
    && (d.status.Delivering? ==>
          || (step.Complete? && step.delivery == id && Completes(s, step))
          || (step.Reconcile? && LeaseExpired(d, step.now))
          || (step.DeleteEndpoint? && step.endpoint == d.endpointId))
  }

  /** The four things that can have happened to a row that exists after `step`. */
  predicate RowStep(s: State, step: Step, id: DeliveryId, d': Delivery) {
    || (id in s.deliveries && d' == s.deliveries[id])
    || (id !in s.knownDeliveries && step.Enqueue? && d'.endpointId in s.endpoints
        && d' == Fresh(step.event, d'.endpointId, step.now))
    || (id in s.deliveries && step.Claim? && id in step.leases
        && d' == Leased(s.deliveries[id], step.leases[id], step.now, step.leaseMs))
    || (id in s.deliveries && Released(s, step, id, s.deliveries[id], d'))
  }

  lemma EnqueueRows(s: State, step: Step, id: DeliveryId)
    requires Valid(s) && Enabled(s, step) && step.Enqueue?
    requires id in Apply(s, step).deliveries
    ensures RowStep(s, step, id, Apply(s, step).deliveries[id])
  {
    assert forall i :: i in s.deliveries ==> RowValid(s, i);
    assert forall i :: i in step.freshIds ==> i !in s.deliveries;
    InsertAllRows(s.deliveries, step.event, step.targets, step.freshIds, step.now);
  }

  lemma RowChange(s: State, step: Step, id: DeliveryId)
    requires Valid(s) && Enabled(s, step)
    requires id in Apply(s, step).deliveries
    ensures RowStep(s, step, id, Apply(s, step).deliveries[id])
  {
    if step.Enqueue? {
      EnqueueRows(s, step, id);
    } else {
      assert RowValid(s, id);
    }
  }

  lemma EnqueueRowsKnown(s: State, step: Step)
    requires Valid(s) && Enabled(s, step) && step.Enqueue?
    ensures forall id :: id in Apply(s, step).deliveries ==> id in Apply(s, step).knownDeliveries
  {
    hide UniquePairs, UniqueTokens, Evicts, PairTaken, InsertAll;
    assert forall i :: i in s.deliveries ==> RowValid(s, i);
    InsertAllRows(s.deliveries, step.event, step.targets, step.freshIds, step.now);
  }

  /** Every other transaction works on rows that are there. */
  lemma NoNewRows(s: State, step: Step)
    requires Enabled(s, step) && !step.Enqueue?
    ensures Apply(s, step).deliveries.Keys <= s.deliveries.Keys
    ensures Apply(s, step).knownDeliveries == s.knownDeliveries
  {
  }

  lemma RowsKnown(s: State, step: Step)
    requires Valid(s) && Enabled(s, step)
    ensures forall id :: id in Apply(s, step).deliveries ==> id in Apply(s, step).knownDeliveries
  {
    hide Apply, Enabled;
    if step.Enqueue? {
      EnqueueRowsKnown(s, step);
    } else {
      NoNewRows(s, step);
      forall id | id in Apply(s, step).deliveries ensures id in s.knownDeliveries {
        assert id in Apply(s, step).deliveries.Keys && RowValid(s, id);
      }
    }
  }

  /** Bookkeeping: nothing handed out is forgotten, and only enabled choices are added. */
  lemma KnownGrows(s: State, step: Step)
    requires Valid(s) && Enabled(s, step)
    ensures var s' := Apply(s, step);
            && s.knownDeliveries <= s'.knownDeliveries
            && s.knownEndpoints <= s'.knownEndpoints
            && s.issuedTokens <= s'.issuedTokens
            && s'.endpoints.Keys <= s'.knownEndpoints
            && (forall e :: e in s'.endpoints && e !in s.endpoints ==> e !in s.knownEndpoints)
            && (forall id :: id in s'.deliveries ==> id in s'.knownDeliveries)
            && (step.Claim? ==> step.leases.Values <= s'.issuedTokens)
  {
    hide RowValid, UniquePairs, UniqueTokens, InsertAll, Completed;
    RowsKnown(s, step);
  }

  lemma UniquePairsPreserved(s: State, step: Step)
    requires Valid(s) && Enabled(s, step)
    ensures UniquePairs(Apply(s, step).deliveries)
  {
    var s' := Apply(s, step);
    if step.Enqueue? {
      assert forall i :: i in s.deliveries ==> RowValid(s, i);
      InsertAllRows(s.deliveries, step.event, step.targets, step.freshIds, step.now);
    } else {
      forall a, b | a in s'.deliveries && b in s'.deliveries && s'.deliveries[a].eventId == s'.deliveries[b].eventId
                    && s'.deliveries[a].endpointId == s'.deliveries[b].endpointId
        ensures a == b
      {
        RowChange(s, step, a);
        RowChange(s, step, b);
      }
    }
  }

  lemma UniqueTokensPreserved(s: State, step: Step)
    requires Valid(s) && Enabled(s, step)
    ensures UniqueTokens(Apply(s, step).deliveries)
  {
    var s' := Apply(s, step);
    forall a, b | a in s'.deliveries && b in s'.deliveries && s'.deliveries[a].leaseToken.Some?
                  && s'.deliveries[a].leaseToken == s'.deliveries[b].leaseToken
      ensures a == b
    {
      RowChange(s, step, a);
      RowChange(s, step, b);
      assert a in s.deliveries ==> RowValid(s, a);
      assert b in s.deliveries ==> RowValid(s, b);
    }
  }

  /** Every transaction keeps the table invariants. */
  lemma ValidPreserved(s: State, step: Step)
    requires Valid(s) && Enabled(s, step)
    ensures Valid(Apply(s, step))
  {
    hide Apply, UniquePairs, UniqueTokens;
    var s' := Apply(s, step);
    KnownGrows(s, step);
    UniquePairsPreserved(s, step);
    UniqueTokensPreserved(s, step);
    forall id | id in s'.deliveries ensures RowValid(s', id) {
      RowChange(s, step, id);
      assert id in s.deliveries ==> RowValid(s, id);
    }
  }

  // ---------------------------------------------------------------------------------
  // Runs
  // ---------------------------------------------------------------------------------

  /** A run of the outbox: any workers and operators, any interleaving, from any valid state. */
  predicate Run(states: seq<State>, steps: seq<Step>) {
    && |states| == |steps| + 1
    && Valid(states[0])
    && forall k :: 0 <= k < |steps| ==> Enabled(states[k], steps[k]) && states[k + 1] == Apply(states[k], steps[k])
  }

  /** Times carried by the steps never run backwards. */
  predicate ClockMonotone(steps: seq<Step>) {
    forall i, j :: 0 <= i < j < |steps| && Now(steps[i]).Some? && Now(steps[j]).Some?
                   ==> Now(steps[i]).value <= Now(steps[j]).value
  }

  lemma {:induction false} ValidThroughout(states: seq<State>, steps: seq<Step>, k: nat)
    requires Run(states, steps) && k < |states|
    ensures Valid(states[k])
  {
    if k > 0 {
      ValidThroughout(states, steps, k - 1);
      ValidPreserved(states[k - 1], steps[k - 1]);
    }
  }

  /** In every reachable state the status, lease and completion columns agree and (event, endpoint) is a key. */
  lemma ReachableTables(states: seq<State>, steps: seq<Step>, k: nat, id: DeliveryId)
    requires Run(states, steps) && k < |states| && id in states[k].deliveries
    ensures var d := states[k].deliveries[id];
            && (d.status.Delivering? <==> d.leaseToken.Some? && d.leaseExpiresAt.Some?)
            && (d.status.Terminal() <==> d.completedAt.Some?)
            && (forall other :: other in states[k].deliveries && other != id ==>
                  (states[k].deliveries[other].eventId, states[k].deliveries[other].endpointId)
                  != (d.eventId, d.endpointId))
  {
    ValidThroughout(states, steps, k);
    assert RowValid(states[k], id);
  }

  // ---------------------------------------------------------------------------------
  // Lease fencing
  // ---------------------------------------------------------------------------------

  /** The row still is what the claim returned, or the token it was given is gone for good. */
  predicate Fenced(s: State, id: DeliveryId, row: Delivery, token: Token) {
    && token in s.issuedTokens
    && ((id in s.deliveries && s.deliveries[id] == row) || TokenGone(s, token))
  }

  predicate TokenGone(s: State, token: Token) {
    forall id :: id in s.deliveries ==> s.deliveries[id].leaseToken != Some(token)
  }

  lemma FencedStep(s: State, step: Step, id: DeliveryId, row: Delivery, token: Token)
    requires Valid(s) && Enabled(s, step) && row.leaseToken == Some(token) && Fenced(s, id, row, token)
    ensures Fenced(Apply(s, step), id, row, token)
    ensures TokenGone(s, token) ==> TokenGone(Apply(s, step), token)
  {
    var s' := Apply(s, step);
    KnownGrows(s, step);
    if !(id in s'.deliveries && s'.deliveries[id] == row) || TokenGone(s, token) {
      forall other | other in s'.deliveries ensures s'.deliveries[other].leaseToken != Some(token) {
        RowChange(s, step, other);
        assert !TokenGone(s, token) && other in s.deliveries && s.deliveries[other].leaseToken == Some(token)
               ==> other == id;
      }
    }
  }

  lemma {:induction false} FencedThroughout(states: seq<State>, steps: seq<Step>, i: nat, k: nat, id: DeliveryId)
    requires Run(states, steps) && i < k < |states|
    requires steps[i].Claim? && id in steps[i].leases
    ensures id in states[i + 1].deliveries
    ensures states[i + 1].deliveries[id].leaseToken == Some(steps[i].leases[id])
    ensures Fenced(states[k], id, states[i + 1].deliveries[id], steps[i].leases[id])
    ensures k > i + 1 && TokenGone(states[k - 1], steps[i].leases[id]) ==> TokenGone(states[k], steps[i].leases[id])
  {
    ValidThroughout(states, steps, i);
    if k == i + 1 {
      assert steps[i].leases[id] in steps[i].leases.Values;
    } else {
      FencedThroughout(states, steps, i, k - 1, id);
      ValidThroughout(states, steps, k - 1);
      FencedStep(states[k - 1], steps[k - 1], id, states[i + 1].deliveries[id], steps[i].leases[id]);
    }
  }

  lemma {:induction false} GoneStaysGone(states: seq<State>, steps: seq<Step>, i: nat, a: nat, b: nat, id: DeliveryId)
    requires Run(states, steps) && i < a <= b < |states|
    requires steps[i].Claim? && id in steps[i].leases
    requires TokenGone(states[a], steps[i].leases[id])
    ensures TokenGone(states[b], steps[i].leases[id])
  {
    hide Apply, Enabled;
    if a < b {
      GoneStaysGone(states, steps, i, a, b - 1, id);
      FencedThroughout(states, steps, i, b, id);
    }
  }

  /**
   Lease fencing.  If a completion that presents the token of an earlier claim succeeds, it
   is for the claimed row and no step in between changed that row.
   */
  lemma LeaseFencing(states: seq<State>, steps: seq<Step>, i: nat, j: nat, id: DeliveryId)
    requires Run(states, steps) && i < j < |steps|
    requires steps[i].Claim? && id in steps[i].leases
    requires steps[j].Complete? && steps[j].claimed.leaseToken == Some(steps[i].leases[id])
    requires Completes(states[j], steps[j])
    ensures steps[j].delivery == id
    ensures forall k :: i < k <= j ==> id in states[k].deliveries && id in states[i + 1].deliveries
                                       && states[k].deliveries[id] == states[i + 1].deliveries[id]
  {
    var token := steps[i].leases[id];
    assert states[j].deliveries[steps[j].delivery].leaseToken == Some(token);
    forall k | i < k <= j
      ensures id in states[k].deliveries && id in states[i + 1].deliveries
      ensures states[k].deliveries[id] == states[i + 1].deliveries[id]
    {
      FencedThroughout(states, steps, i, k, id);
      if TokenGone(states[k], token) {
        GoneStaysGone(states, steps, i, k, j, id);
      }
    }
    ValidThroughout(states, steps, j);
  }

  /** One claim completes at most once. */
  lemma ClaimCompletesOnce(states: seq<State>, steps: seq<Step>, i: nat, j: nat, l: nat, id: DeliveryId)
    requires Run(states, steps) && i < j < l < |steps|
    requires steps[i].Claim? && id in steps[i].leases
    requires steps[j].Complete? && steps[j].claimed.leaseToken == Some(steps[i].leases[id])
    requires steps[l].Complete? && steps[l].claimed.leaseToken == Some(steps[i].leases[id])
    requires Completes(states[j], steps[j])
    ensures !Completes(states[l], steps[l]) && states[l + 1] == states[l]
  {
    LeaseFencing(states, steps, i, j, id);
    ValidThroughout(states, steps, j);
    assert TokenGone(states[j + 1], steps[i].leases[id]);
    GoneStaysGone(states, steps, i, j + 1, l, id);
  }

  // ---------------------------------------------------------------------------------
  // Lease spacing
  // ---------------------------------------------------------------------------------

  /** Until `due` the row cannot be claimed: it is leased until then, or its endpoint is gone, or it is gone. */
  predicate Held(s: State, id: DeliveryId, due: Time) {
    && id in s.knownDeliveries
    && (id in s.deliveries ==>
          || (s.deliveries[id].status.Delivering? && s.deliveries[id].leaseExpiresAt == Some(due))
          || s.deliveries[id].endpointId !in s.endpoints)
  }

  lemma HeldStep(s: State, step: Step, id: DeliveryId, due: Time)
    requires Valid(s) && Enabled(s, step) && Held(s, id, due)
    requires step.Complete? && step.delivery == id ==> !Completes(s, step)
    requires Now(step).Some? ==> Now(step).value < due
    ensures Held(Apply(s, step), id, due)
  {
    hide UniquePairs, UniqueTokens, InsertAll, LeasedRows, ReconciledRows;
    var s' := Apply(s, step);
    KnownGrows(s, step);
    if id in s'.deliveries {
      RowChange(s, step, id);
      assert RowValid(s, id);
      assert s'.deliveries[id].endpointId in s.knownEndpoints;
    }
  }

  lemma HeldAfterClaim(s: State, step: Step, id: DeliveryId)
    requires Valid(s) && Enabled(s, step) && step.Claim? && id in step.leases
    ensures Held(Apply(s, step), id, step.now + step.leaseMs)
  {
    assert RowValid(s, id);
  }

  lemma {:induction false} HeldThroughout(states: seq<State>, steps: seq<Step>, i: nat, k: nat, id: DeliveryId)
    requires Run(states, steps) && i < k < |states|
    requires steps[i].Claim? && id in steps[i].leases
    requires forall l :: i < l < k && steps[l].Complete? && steps[l].delivery == id ==> !Completes(states[l], steps[l])
    requires forall l :: i < l < k && Now(steps[l]).Some? ==> Now(steps[l]).value < steps[i].now + steps[i].leaseMs
    ensures Held(states[k], id, steps[i].now + steps[i].leaseMs)
  {
    hide Apply, Enabled;
    ValidThroughout(states, steps, k - 1);
    if k == i + 1 {
      HeldAfterClaim(states[i], steps[i], id);
    } else {
      HeldThroughout(states, steps, i, k - 1, id);
      HeldStep(states[k - 1], steps[k - 1], id, steps[i].now + steps[i].leaseMs);
    }
  }

  /**
   Lease spacing.  With a clock that never runs backwards, two claims of one delivery with no
   successful completion between them are at least `leaseMs` apart, whatever happened meanwhile.
   */
  lemma LeaseSpacing(states: seq<State>, steps: seq<Step>, i: nat, j: nat, id: DeliveryId)
    requires Run(states, steps) && ClockMonotone(steps) && i < j < |steps|
    requires steps[i].Claim? && id in steps[i].leases
    requires steps[j].Claim? && id in steps[j].leases
    requires forall l :: i < l < j && steps[l].Complete? && steps[l].delivery == id ==> !Completes(states[l], steps[l])
    ensures steps[j].now >= steps[i].now + steps[i].leaseMs
  {
    var due := steps[i].now + steps[i].leaseMs;
    if forall l :: i < l < j && Now(steps[l]).Some? ==> Now(steps[l]).value < due {
      HeldThroughout(states, steps, i, j, id);
    } else {
      var l :| i < l < j && Now(steps[l]).Some? && Now(steps[l]).value >= due;
      assert Now(steps[j]).Some?;
    }
  }

  // ---------------------------------------------------------------------------------
  // Pruning
  // ---------------------------------------------------------------------------------

  lemma NothingStaleStep(s: State, step: Step, before: Time, ids: set<DeliveryId>)
    requires Valid(s) && Enabled(s, step)
    requires PruneEligible(s, before, Some(ids)) == {}
    requires Now(step).Some? ==> Now(step).value >= before
    ensures PruneEligible(Apply(s, step), before, Some(ids)) == {}
  {
    var s' := Apply(s, step);
    forall id | id in s'.deliveries ensures id !in PruneEligible(s', before, Some(ids)) {
      RowChange(s, step, id);
      assert id !in PruneEligible(s, before, Some(ids));
      assert id in s.deliveries ==> RowValid(s, id);
    }
  }

  lemma {:induction false} NothingStaleThroughout(states: seq<State>, steps: seq<Step>, i: nat, k: nat)
    requires Run(states, steps) && i < k < |states|
    requires steps[i].Prune? && steps[i].ids.Some? && !steps[i].dryRun
    requires forall l :: i < l < k && Now(steps[l]).Some? ==> Now(steps[l]).value >= steps[i].before
    ensures PruneEligible(states[k], steps[i].before, steps[i].ids) == {}
  {
    if k > i + 1 {
      NothingStaleThroughout(states, steps, i, k - 1);
      ValidThroughout(states, steps, k - 1);
      NothingStaleStep(states[k - 1], steps[k - 1], steps[i].before, steps[i].ids.value);
    }
  }

  /**
   Exact-set pruning is repeatable: with a cutoff not later than any following step, echoing the same
   ids and cutoff after any sequence of other steps selects nothing and changes nothing.
   */
  lemma PruneIdempotent(states: seq<State>, steps: seq<Step>, i: nat, j: nat)
    requires Run(states, steps) && i < j < |steps|
    requires steps[i].Prune? && steps[i].ids.Some? && !steps[i].dryRun
    requires steps[j].Prune? && steps[j].ids == steps[i].ids && steps[j].before == steps[i].before
    requires forall l :: i < l < j && Now(steps[l]).Some? ==> Now(steps[l]).value >= steps[i].before
    ensures steps[j].chosen == {} && states[j + 1] == states[j]
  {
    NothingStaleThroughout(states, steps, i, j);
    assert states[j].deliveries - {} == states[j].deliveries;
  }

  /** A prune, one step at time `at`, and the echo of the prune, which deletes something. */
  ghost predicate EchoDeletes(states: seq<State>, steps: seq<Step>, before: Time, at: Time) {
    && Run(states, steps) && ClockMonotone(steps) && |steps| == 3
    && steps[0].Prune? && steps[0].ids.Some? && !steps[0].dryRun && steps[0].before == before
    && Now(steps[1]) == Some(at)
    && steps[2].Prune? && steps[2].ids == steps[0].ids && steps[2].before == before
    && steps[2].chosen != {}
  }

  /**
   A waiting delivery of an endpoint, before and after the endpoint is deleted at time `at`, and after its pruning.
   */
  function Waiting(): State {
    var endpoint := Endpoint(EndpointConfig(true, 3, 5, 1000), 0, false, None, None, None, None);
    State(map[2 := Fresh(7, 1, 0)], map[1 := endpoint], {2}, {1}, {})
  }

  function Settled(at: Time): State {
    State(map[2 := Abandoned(Fresh(7, 1, 0), at)], map[], {2}, {1}, {})
  }

  const PRUNED := State(map[], map[], {2}, {1}, {})

  function PruneTwo(before: Time, chosen: set<DeliveryId>): Step {
    Prune(before, Some({2}), chosen, 0, false)
  }

  lemma WaitingIsKept(before: Time)
    ensures Valid(Waiting()) && Enabled(Waiting(), PruneTwo(before, {}))
    ensures Apply(Waiting(), PruneTwo(before, {})) == Waiting()
  {
    var s := Waiting();
    assert RowValid(s, 2);
    assert PruneEligible(s, before, Some({2})) == {};
    assert s.deliveries - {} == s.deliveries;
  }

  lemma WaitingIsSettled(at: Time)
    ensures Enabled(Waiting(), DeleteEndpoint(1, at)) && Apply(Waiting(), DeleteEndpoint(1, at)) == Settled(at)
  {
    hide Fresh;
    assert Fresh(7, 1, 0).endpointId == 1 && !Fresh(7, 1, 0).status.Terminal() by { FreshIsWaiting(); }
  }

  lemma FreshIsWaiting()
    ensures Fresh(7, 1, 0).endpointId == 1 && !Fresh(7, 1, 0).status.Terminal()
  {
  }

  lemma SettledIsPruned(before: Time, at: Time)
    requires at < before
    ensures Enabled(Settled(at), PruneTwo(before, {2})) && Apply(Settled(at), PruneTwo(before, {2})) == PRUNED
  {
    assert PruneEligible(Settled(at), before, Some({2})) == {2};
  }

  /** Any step that settles a row before the cutoff gives the echo something to delete. */
  lemma FutureCutoffPrunesAgain(before: Time, at: Time)
    requires at < before
    ensures EchoDeletes([Waiting(), Waiting(), Settled(at), PRUNED],
                        [PruneTwo(before, {}), DeleteEndpoint(1, at), PruneTwo(before, {2})], before, at)
  {
    hide Run, ClockMonotone, Waiting, Settled, PRUNED, Enabled, Apply, Valid;
    WaitingIsKept(before);
    WaitingIsSettled(at);
    SettledIsPruned(before, at);
    ThreeSteps(Waiting(), Settled(at), PRUNED, PruneTwo(before, {}), DeleteEndpoint(1, at), PruneTwo(before, {2}));
  }

  /** So an echo after a step at time `at` can delete something exactly when the cutoff lies after that time. */
  lemma EchoCondition(before: Time, at: Time)
    ensures (exists states, steps :: EchoDeletes(states, steps, before, at)) <==> at < before
  {
    hide Run, ClockMonotone;
    if at < before {
      FutureCutoffPrunesAgain(before, at);
    } else if states, steps :| EchoDeletes(states, steps, before, at) {
      PruneIdempotent(states, steps, 0, 2);
    }
  }

  /** Three steps in a row, the first without effect, make a run. */
  lemma ThreeSteps(s0: State, s2: State, s3: State, a: Step, b: Step, c: Step)
    requires Valid(s0) && Now(a).None? && Now(c).None?
    requires Enabled(s0, a) && Apply(s0, a) == s0
    requires Enabled(s0, b) && Apply(s0, b) == s2
    requires Enabled(s2, c) && Apply(s2, c) == s3
    ensures Run([s0, s0, s2, s3], [a, b, c]) && ClockMonotone([a, b, c])
  {
    hide Enabled, Apply, Valid;
    var states, steps := [s0, s0, s2, s3], [a, b, c];
    forall k | 0 <= k < 3 ensures Enabled(states[k], steps[k]) && states[k + 1] == Apply(states[k], steps[k]) {
      assert k == 0 || k == 1 || k == 2;
    }
  }

  // ---------------------------------------------------------------------------------
  // Rows are kept, and the table stays within its limit
  // ---------------------------------------------------------------------------------

  /** Only terminal rows are ever deleted, by whatever transaction. */
  lemma ActiveRowsSurvive(s: State, step: Step, id: DeliveryId)
    requires Valid(s) && Enabled(s, step)
    requires id in s.deliveries && id !in Apply(s, step).deliveries
    ensures s.deliveries[id].status.Terminal()
    ensures step.Enqueue? ==> id in step.evicted
    ensures step.Prune? ==> id in step.chosen && (step.ids.Some? ==> id in step.ids.value)
    ensures step.Enqueue? || step.Prune?
  {
    if step.Enqueue? {
      assert forall i :: i in s.deliveries ==> RowValid(s, i);
      InsertAllRows(s.deliveries, step.event, step.targets, step.freshIds, step.now);
    }
  }

  lemma SucceededStep(s: State, step: Step, id: DeliveryId, row: Delivery)
    requires Valid(s) && Enabled(s, step)
    requires id in s.knownDeliveries && row.status.Succeeded?
    requires id in s.deliveries ==> s.deliveries[id] == row
    ensures id in Apply(s, step).deliveries ==> id in s.deliveries && Apply(s, step).deliveries[id] == row
  {
    if id in Apply(s, step).deliveries {
      RowChange(s, step, id);
    }
  }

  /** A succeeded row never changes; it can only be deleted, and then its id never comes back. */
  lemma {:induction false} SucceededFrozen(states: seq<State>, steps: seq<Step>, i: nat, j: nat, id: DeliveryId)
    requires Run(states, steps) && i <= j < |states|
    requires id in states[i].deliveries && states[i].deliveries[id].status.Succeeded?
    ensures id in states[j].knownDeliveries
    ensures id in states[j].deliveries ==> states[j].deliveries[id] == states[i].deliveries[id]
    ensures j > i && id !in states[j - 1].deliveries ==> id !in states[j].deliveries
  {
    if i == j {
      ValidThroughout(states, steps, i);
      assert RowValid(states[i], id);
    } else {
      SucceededFrozen(states, steps, i, j - 1, id);
      ValidThroughout(states, steps, j - 1);
      KnownGrows(states[j - 1], steps[j - 1]);
      SucceededStep(states[j - 1], steps[j - 1], id, states[i].deliveries[id]);
    }
  }

  lemma KeysOnlyGrowByEnqueue(s: State, step: Step)
    requires Valid(s) && Enabled(s, step) && !step.Enqueue?
    ensures |Apply(s, step).deliveries| <= |s.deliveries|
  {
    var s' := Apply(s, step);
    forall id | id in s'.deliveries ensures id in s.deliveries {
      RowChange(s, step, id);
    }
    SubsetSize(s'.deliveries.Keys, s.deliveries.Keys);
  }

  lemma RemovalSize(ds: map<DeliveryId, Delivery>, gone: set<DeliveryId>)
    requires gone <= ds.Keys
    ensures |ds - gone| == |ds| - |gone|
  {
    assert ds.Keys == (ds - gone).Keys + gone;
  }

  /** An enqueue either changes nothing or leaves at most `limit` rows. */
  lemma EnqueueWithinLimit(s: State, step: Step)
    requires Valid(s) && Enabled(s, step) && step.Enqueue?
    ensures Apply(s, step) == s || |Apply(s, step).deliveries| <= step.limit
  {
    var inserted := InsertAll(s.deliveries, step.event, step.targets, step.freshIds, step.now);
    assert step.evicted <= inserted.Keys;
    RemovalSize(inserted, step.evicted);
  }

  /** A target whose pair was not taken has a fresh row after the inserts. */
  lemma FreshRowFor(ds: map<DeliveryId, Delivery>, r: map<DeliveryId, Delivery>, event: EventId,
                    targets: seq<EndpointId>, freshIds: seq<DeliveryId>, now: Time, t: EndpointId)
    returns (id: DeliveryId)
    requires Inserted(ds, r, event, targets, freshIds, now) && t in targets && !PairTaken(ds, event, t)
    ensures id in r && id !in ds && r[id] == Fresh(event, t, now)
  {
    hide UniquePairs;
    assert PairTaken(r, event, t);
    id :| id in r && r[id].eventId == event && r[id].endpointId == t;
  }

  /** An enqueue that commits keeps every active row as it was and queues every target not served before. */
  lemma EnqueueKeepsAndQueues(s: State, step: Step)
    requires Valid(s) && Enabled(s, step) && step.Enqueue?
    ensures var s' := Apply(s, step);
            && (forall id :: id in s.deliveries && !s.deliveries[id].status.Terminal() ==>
                  id in s'.deliveries && s'.deliveries[id] == s.deliveries[id])
            && (s' != s ==> forall t :: t in step.targets && !PairTaken(s.deliveries, step.event, t) ==>
                  exists id :: id in s'.deliveries && s'.deliveries[id] == Fresh(step.event, t, step.now))
  {
    hide UniquePairs, UniqueTokens, PairTaken, InsertAll;
    var s' := Apply(s, step);
    assert forall i :: i in s.deliveries ==> RowValid(s, i);
    InsertAllRows(s.deliveries, step.event, step.targets, step.freshIds, step.now);
    var inserted := InsertAll(s.deliveries, step.event, step.targets, step.freshIds, step.now);
    if s' != s {
      forall t | t in step.targets && !PairTaken(s.deliveries, step.event, t)
        ensures exists id :: id in s'.deliveries && s'.deliveries[id] == Fresh(step.event, t, step.now)
      {
        var id := FreshRowFor(s.deliveries, inserted, step.event, step.targets, step.freshIds, step.now, t);
        assert id in s'.deliveries && s'.deliveries[id] == Fresh(step.event, t, step.now);
      }
    }
  }

  /** For a fixed limit the table never outgrows it. */
  lemma {:induction false} CapacityBound(states: seq<State>, steps: seq<Step>, limit: int, k: nat)
    requires Run(states, steps) && k < |states|
    requires forall l :: 0 <= l < |steps| && steps[l].Enqueue? ==> steps[l].limit <= limit
    requires |states[0].deliveries| <= limit
    ensures |states[k].deliveries| <= limit
  {
    hide Valid, InsertAll;
    if k > 0 {
      CapacityBound(states, steps, limit, k - 1);
      ValidThroughout(states, steps, k - 1);
      if steps[k - 1].Enqueue? {
        EnqueueWithinLimit(states[k - 1], steps[k - 1]);
      } else {
        KeysOnlyGrowByEnqueue(states[k - 1], steps[k - 1]);
      }
    }
  }

  // ---------------------------------------------------------------------------------
  // Circuit breaker
  // ---------------------------------------------------------------------------------

  /** `step`, taken in `s`, is a completion that reports on endpoint `e`. */
  predicate ReportsOn(s: State, step: Step, e: EndpointId) {
    step.Complete? && Completes(s, step) && step.view.Some? && step.view.value.id == e
  }

  /** A failure the breaker counts: the worker's view of the endpoint was enabled. */
  predicate CountsFailure(s: State, step: Step, e: EndpointId) {
    ReportsOn(s, step, e) && !step.report.success && step.view.value.enabled
  }

  /** A success, a reset, or the endpoint's own creation or deletion. */
  predicate ClearsFailures(s: State, step: Step, e: EndpointId) {
    || (ReportsOn(s, step, e) && step.report.success)
    || ((step.ResetCircuit? || step.CreateEndpoint? || step.DeleteEndpoint?) && step.endpoint == e)
  }

  /** Failures of `e` counted in the first `k` steps since the last one that clears. */
  function FailuresSince(states: seq<State>, steps: seq<Step>, e: EndpointId, k: nat): nat
    requires |states| == |steps| + 1 && k < |states|
  {
    if k == 0 then (if e in states[0].endpoints then states[0].endpoints[e].consecutiveFailures else 0)
    else if ClearsFailures(states[k - 1], steps[k - 1], e) then 0
    else if CountsFailure(states[k - 1], steps[k - 1], e) then FailuresSince(states, steps, e, k - 1) + 1
    else FailuresSince(states, steps, e, k - 1)
  }

  predicate CircuitSound(endpoint: Endpoint) {
    && endpoint.config.failureThreshold >= 1
    && (endpoint.circuitOpen <==> endpoint.consecutiveFailures >= endpoint.config.failureThreshold)
    && (endpoint.circuitOpen <==> endpoint.openUntil.Some?)
  }

  /** The step does not move the threshold of `e`. */
  predicate KeepsThreshold(s: State, step: Step, e: EndpointId) {
    step.UpdateEndpoint? && step.endpoint == e && e in s.endpoints
    ==> step.config.failureThreshold == s.endpoints[e].config.failureThreshold
  }

  lemma EndpointStep(s: State, step: Step, e: EndpointId)
    requires Valid(s) && Enabled(s, step) && e in Apply(s, step).endpoints
    ensures var e' := Apply(s, step).endpoints[e];
            if e !in s.endpoints then step.CreateEndpoint? && step.endpoint == e && e'.consecutiveFailures == 0
                                      && CircuitSound(e')
            else
              && e'.consecutiveFailures == (if ClearsFailures(s, step, e) then 0
                                            else if CountsFailure(s, step, e)
                                            then s.endpoints[e].consecutiveFailures + 1
                                            else s.endpoints[e].consecutiveFailures)
              && (CircuitSound(s.endpoints[e]) && KeepsThreshold(s, step, e) ==> CircuitSound(e'))
  {
    hide RowValid, UniquePairs, UniqueTokens, InsertAll, LeasedRows, ReconciledRows;
  }

  /**
   Between threshold changes a circuit is open exactly when the failures counted since the last
   success or reset have reached the threshold; the stored counter is that number at all times.
   */
  lemma {:induction false} CircuitTracksFailures(states: seq<State>, steps: seq<Step>, e: EndpointId, k: nat)
    requires Run(states, steps) && k < |states| && e in states[k].endpoints
    ensures states[k].endpoints[e].consecutiveFailures == FailuresSince(states, steps, e, k)
    ensures (forall l :: 0 <= l < k ==> KeepsThreshold(states[l], steps[l], e))
            && (e in states[0].endpoints ==> CircuitSound(states[0].endpoints[e]))
            ==> CircuitSound(states[k].endpoints[e])
  {
    if k > 0 {
      ValidThroughout(states, steps, k - 1);
      EndpointStep(states[k - 1], steps[k - 1], e);
      if e in states[k - 1].endpoints {
        CircuitTracksFailures(states, steps, e, k - 1);
      }
    }
  }

  /** Moving the threshold keeps the agreement exactly when the counter is on the same side of both. */
  lemma ThresholdMove(s: State, e: EndpointId, config: EndpointConfig)
    requires e in s.endpoints && CircuitSound(s.endpoints[e]) && ConfigAccepted(config)
    ensures var failures := s.endpoints[e].consecutiveFailures;
            CircuitSound(Apply(s, UpdateEndpoint(e, config)).endpoints[e])
            <==> (failures >= config.failureThreshold <==> failures >= s.endpoints[e].config.failureThreshold)
  {
  }

  predicate OpenUntilAtLeast(s: State, e: EndpointId, config: EndpointConfig, since: Time) {
    && e in s.endpoints && s.endpoints[e].config == config && s.endpoints[e].circuitOpen
    && s.endpoints[e].consecutiveFailures >= config.failureThreshold
    && s.endpoints[e].openUntil.Some? && s.endpoints[e].openUntil.value >= since + config.cooldownMs
  }

  lemma OpenStep(s: State, step: Step, e: EndpointId, config: EndpointConfig, since: Time)
    requires Valid(s) && Enabled(s, step) && OpenUntilAtLeast(s, e, config, since)
    requires !ClearsFailures(s, step, e) && !(step.UpdateEndpoint? && step.endpoint == e)
    requires Now(step).Some? ==> Now(step).value >= since
    ensures OpenUntilAtLeast(Apply(s, step), e, config, since)
  {
  }

  lemma {:induction false} OpenThroughout(states: seq<State>, steps: seq<Step>, i: nat, k: nat, e: EndpointId)
    requires Run(states, steps) && ClockMonotone(steps) && i < k < |states|
    requires CountsFailure(states[i], steps[i], e) && e in states[i + 1].endpoints
    requires states[i + 1].endpoints[e].circuitOpen
    requires forall l :: i < l < k ==> !ClearsFailures(states[l], steps[l], e)
                                       && !(steps[l].UpdateEndpoint? && steps[l].endpoint == e)
    ensures OpenUntilAtLeast(states[k], e, states[i + 1].endpoints[e].config, steps[i].now)
  {
    if k > i + 1 {
      OpenThroughout(states, steps, i, k - 1, e);
      ValidThroughout(states, steps, k - 1);
      assert Now(steps[i]).Some?;
      OpenStep(states[k - 1], steps[k - 1], e, states[i + 1].endpoints[e].config, steps[i].now);
    }
  }

  /**
   A tripped circuit holds: after a failure that opens it, and until a success, reset, deletion or
   reconfiguration of the endpoint, no claim that respects the breaker takes one of its deliveries
   before the cooldown has passed.
   */
  lemma CircuitHolds(states: seq<State>, steps: seq<Step>, i: nat, j: nat, e: EndpointId, id: DeliveryId)
    requires Run(states, steps) && ClockMonotone(steps) && i < j < |steps|
    requires CountsFailure(states[i], steps[i], e) && e in states[i + 1].endpoints
    requires states[i + 1].endpoints[e].circuitOpen
    requires forall l :: i < l < j ==> !ClearsFailures(states[l], steps[l], e)
                                       && !(steps[l].UpdateEndpoint? && steps[l].endpoint == e)
    requires steps[j].Claim? && !steps[j].bypassCircuit && id in steps[j].leases
    requires id in states[j].deliveries && states[j].deliveries[id].endpointId == e
    ensures steps[j].now >= steps[i].now + states[i + 1].endpoints[e].config.cooldownMs
  {
    OpenThroughout(states, steps, i, j, e);
  }
}
