/**
 The repository object itself: two mutable tables and one method per SQL transaction, with
 the loops of the source.  Every method is proved to be the corresponding step of `Outbox`.
 */
module OutboxRepository {
  import opened Prelude
  import opened Outbox
  import OutboxRuns
  import OutboxRows

  datatype RepositoryError = NotFound | StateConflict | EndpointUnavailable | LeaseConflict | StoreFull

  datatype EnqueueResult = EnqueueResult(matched: nat, queued: nat, duplicates: nat, deliveryIds: seq<DeliveryId>)

  datatype ClaimedDelivery = ClaimedDelivery(id: DeliveryId, delivery: Delivery, endpoint: Option<Endpoint>)

  datatype ReconcileResult = ReconcileResult(scanned: nat, recovered: nat, exhausted: nat, untouched: nat, dryRun: bool)

  datatype ReplayResult = ReplayResult(
    eligible: nat, replayed: nat, failed: nat, dryRun: bool, deliveryIds: set<DeliveryId>, errors: set<DeliveryId>)

  /** The optional id and endpoint filters of a replay. */
  datatype Selection = Selection(ids: Option<set<DeliveryId>>, endpoint: Option<EndpointId>)

  /** The selected deliveries in the dead-letter state. */
  function DeadLetters(s: State, sel: Selection): set<DeliveryId> {
    set id | id in s.deliveries && s.deliveries[id].status.Exhausted?
             && (sel.ids.Some? ==> id in sel.ids.value)
             && (sel.endpoint.Some? ==> s.deliveries[id].endpointId == sel.endpoint.value)
  }

  /** Those of them whose endpoint is disabled or missing. */
  function Unavailable(s: State, sel: Selection): set<DeliveryId> {
    set id | id in DeadLetters(s, sel) && !Replayable(s, s.deliveries[id])
  }

  /** Exhausted deliveries that pass both filters. */
  predicate Selected(s: State, sel: Selection, ids: set<DeliveryId>) {
    forall id :: id in ids ==>
      && id in s.deliveries && s.deliveries[id].status.Exhausted?
      && (sel.ids.Some? ==> id in sel.ids.value)
      && (sel.endpoint.Some? ==> s.deliveries[id].endpointId == sel.endpoint.value)
  }

  lemma DeadLettersSelected(s: State, sel: Selection, ids: set<DeliveryId>)
    requires ids <= DeadLetters(s, sel)
    ensures Selected(s, sel, ids)
  {
  }

  /** The unavailable dead letters are selected as well, and none of them can be replayed. */
  lemma UnavailableSelected(s: State, sel: Selection, ids: set<DeliveryId>)
    requires ids <= Unavailable(s, sel)
    ensures Selected(s, sel, ids) && ids <= DeadLetters(s, sel)
    ensures forall id :: id in ids ==> !OutboxRows.EndpointServes(s, s.deliveries[id])
    ensures forall id :: id in ids ==> !Replayable(s, s.deliveries[id])
  {
  }

  /** Replaying takes the picked rows out of the dead letters and leaves the unavailable ones there. */
  lemma ReplayedSets(s: State, sel: Selection, picked: set<DeliveryId>, now: Time, limit: int)
    requires Enabled(s, Replay(picked, now, limit, false))
    ensures var s' := Apply(s, Replay(picked, now, limit, false));
            DeadLetters(s', sel) == DeadLetters(s, sel) - picked && Unavailable(s', sel) == Unavailable(s, sel)
  {
    var s' := Apply(s, Replay(picked, now, limit, false));
    forall id | id in s.deliveries
      ensures id in DeadLetters(s', sel) <==> id in DeadLetters(s, sel) && id !in picked
      ensures id in picked ==> Replayable(s, s.deliveries[id])
    {
      assert s'.deliveries[id] == if id in picked then Requeued(s.deliveries[id], now) else s.deliveries[id];
    }
  }

  /** `chosen` is what a query with this limit returns from `rows`. */
  predicate Limited(chosen: set<DeliveryId>, rows: set<DeliveryId>, limit: nat) {
    chosen <= rows && |chosen| == if |rows| <= limit then |rows| else limit
  }

  lemma LimitedSelects(chosen: set<DeliveryId>, rows: set<DeliveryId>, limit: nat)
    requires Limited(chosen, rows, limit)
    ensures chosen <= rows && (|rows| <= limit ==> chosen == rows)
  {
    if |rows| <= limit {
      assert rows == chosen + (rows - chosen);
      assert |rows - chosen| == 0;
    }
  }

  function Lookup(endpoints: map<EndpointId, Endpoint>, id: EndpointId): Option<Endpoint> {
    if id in endpoints then Some(endpoints[id]) else None
  }

  function Ids(rows: seq<DeliveryId>): set<DeliveryId> {
    set id | id in rows
  }

  /** The scanned rows whose lease has expired, split by whether they may be retried. */
  function Expired(ds: map<DeliveryId, Delivery>, endpoints: map<EndpointId, Endpoint>, rows: seq<DeliveryId>,
                   now: Time,
                   retry: bool): set<DeliveryId>
  {
    set id | id in rows && id in ds && LeaseExpired(ds[id], now) && CanRetry(ds[id], endpoints) == retry
  }

  /** The insert loop of enqueue: one `ON CONFLICT DO NOTHING` per endpoint, collecting the new ids. */
  method InsertRows(ds: map<DeliveryId, Delivery>, event: EventId, targets: seq<EndpointId>, freshIds: seq<DeliveryId>,
                    now: Time)
    returns (rows: map<DeliveryId, Delivery>, ids: seq<DeliveryId>)
    requires |targets| == |freshIds| && Distinct(freshIds)
    requires forall id :: id in freshIds ==> id !in ds
    ensures rows == InsertAll(ds, event, targets, freshIds, now)
    ensures |ids| <= |targets| && Distinct(ids)
    ensures forall id :: id in ids <==> id !in ds && id in rows
  {
    hide PairTaken, Fresh;
    rows, ids := ds, [];
    for i := 0 to |targets|
      invariant rows == InsertAll(ds, event, targets[..i], freshIds[..i], now)
      invariant |ids| <= i && Distinct(ids)
      invariant forall id :: id in ids ==> id in freshIds[..i]
      invariant forall id :: id in ids <==> id !in ds && id in rows
    {
      assert targets[..i + 1][..i] == targets[..i] && freshIds[..i + 1][..i] == freshIds[..i];
      assert freshIds[i] !in freshIds[..i] && freshIds[i] in freshIds;
      if !PairTaken(rows, event, targets[i]) {
        rows := rows[freshIds[i] := Fresh(event, targets[i], now)];
        ids := ids + [freshIds[i]];
      }
    }
    assert targets[..|targets|] == targets && freshIds[..|freshIds|] == freshIds;
  }

  /** The update loop of claimDeliveries: every returned row gets its own fresh lease. */
  method LeaseRows(ds: map<DeliveryId, Delivery>, endpoints: map<EndpointId, Endpoint>, rows: seq<DeliveryId>,
                   leases: map<DeliveryId, Token>, now: Time, leaseMs: int)
    returns (leased: map<DeliveryId, Delivery>, claimed: seq<ClaimedDelivery>)
    requires Distinct(rows) && Ids(rows) == leases.Keys
    requires forall id :: id in rows ==> id in ds
    ensures leased == LeasedRows(ds, leases, now, leaseMs)
    ensures |claimed| == |rows|
    ensures forall i :: 0 <= i < |rows| ==>
              rows[i] in leased
              && claimed[i] == ClaimedDelivery(rows[i], leased[rows[i]], Lookup(endpoints, leased[rows[i]].endpointId))
  {
    hide Lookup;
    leased, claimed := ds, [];
    for i := 0 to |rows|
      invariant leased.Keys == ds.Keys
      invariant forall k :: 0 <= k < i ==> leased[rows[k]] == Leased(ds[rows[k]], leases[rows[k]], now, leaseMs)
      invariant forall id :: id in ds && id !in rows[..i] ==> leased[id] == ds[id]
      invariant |claimed| == i
      invariant forall k :: 0 <= k < i ==> claimed[k] == ClaimedDelivery(rows[k], leased[rows[k]],
                                                                         Lookup(endpoints, ds[rows[k]].endpointId))
    {
      var id := rows[i];
      assert id in Ids(rows) && id !in rows[..i];
      var row := Leased(leased[id], leases[id], now, leaseMs);
      leased := leased[id := row];
      claimed := claimed + [ClaimedDelivery(id, row, Lookup(endpoints, row.endpointId))];
    }
    assert forall id :: id in ds && id in leases ==> id in Ids(rows);
  }

  /** Every row a claim leases is there and has a registered endpoint, before and after. */
  lemma ClaimedAreServed(s: State, leases: map<DeliveryId, Token>, now: Time, leaseMs: int, limit: int,
                         bypassCircuit: bool)
    requires Enabled(s, Claim(leases, now, leaseMs, limit, bypassCircuit))
    ensures forall id :: id in leases.Keys ==>
              && id in s.deliveries && id in LeasedRows(s.deliveries, leases, now, leaseMs)
              && LeasedRows(s.deliveries, leases, now, leaseMs)[id].endpointId in s.endpoints
  {
  }

  lemma ReconciledRowsExtend(ds: map<DeliveryId, Delivery>, endpoints: map<EndpointId, Endpoint>, rows: seq<DeliveryId>,
                             now: Time, i: nat)
    requires Distinct(rows) && i < |rows| && rows[i] in ds
    ensures var before := ReconciledRows(ds, endpoints, Ids(rows[..i]), now);
            && before[rows[i]] == ds[rows[i]]
            && ReconciledRows(ds, endpoints, Ids(rows[..i + 1]), now)
               == if LeaseExpired(ds[rows[i]], now) then before[rows[i] := Reconciled(ds[rows[i]], endpoints, now)]
                  else before
  {
    hide LeaseExpired, Reconciled;
    assert rows[i] !in rows[..i];
    assert rows[..i + 1] == rows[..i] + [rows[i]];
    assert Ids(rows[..i + 1]) == Ids(rows[..i]) + {rows[i]};
  }

  lemma ExpiredExtend(ds: map<DeliveryId, Delivery>, endpoints: map<EndpointId, Endpoint>, rows: seq<DeliveryId>,
                      now: Time, i: nat, retry: bool)
    requires Distinct(rows) && i < |rows| && rows[i] in ds
    ensures |Expired(ds, endpoints, rows[..i + 1], now, retry)|
         == |Expired(ds, endpoints, rows[..i], now, retry)|
            + if LeaseExpired(ds[rows[i]], now) && CanRetry(ds[rows[i]], endpoints) == retry then 1 else 0
  {
    hide LeaseExpired, CanRetry;
    assert rows[i] !in rows[..i];
    assert rows[..i + 1] == rows[..i] + [rows[i]];
    var before := Expired(ds, endpoints, rows[..i], now, retry);
    var after := Expired(ds, endpoints, rows[..i + 1], now, retry);
    assert after == if LeaseExpired(ds[rows[i]], now) && CanRetry(ds[rows[i]], endpoints) == retry
                    then before + {rows[i]} else before;
  }

  /** The classification and update loop of reconcile. */
  method ReconcileRows(ds: map<DeliveryId, Delivery>, endpoints: map<EndpointId, Endpoint>, rows: seq<DeliveryId>,
                       now: Time, dryRun: bool)
    returns (after: map<DeliveryId, Delivery>, r: ReconcileResult)
    requires Distinct(rows) && forall id :: id in rows ==> id in ds
    ensures after == if dryRun then ds else ReconciledRows(ds, endpoints, Ids(rows), now)
    ensures r.scanned == |rows| == r.recovered + r.exhausted + r.untouched && r.dryRun == dryRun
    ensures r.recovered == |Expired(ds, endpoints, rows, now, true)|
    ensures r.exhausted == |Expired(ds, endpoints, rows, now, false)|
  {
    after := ds;
    var recovered, exhausted, untouched := 0, 0, 0;
    for i := 0 to |rows|
      invariant after == if dryRun then ds else ReconciledRows(ds, endpoints, Ids(rows[..i]), now)
      invariant recovered + exhausted + untouched == i
      invariant recovered == |Expired(ds, endpoints, rows[..i], now, true)|
      invariant exhausted == |Expired(ds, endpoints, rows[..i], now, false)|
    {
      var id := rows[i];
      ReconciledRowsExtend(ds, endpoints, rows, now, i);
      ExpiredExtend(ds, endpoints, rows, now, i, true);
      ExpiredExtend(ds, endpoints, rows, now, i, false);
      var row := after[id];
      if !LeaseExpired(row, now) {
        untouched := untouched + 1;
      } else {
        if CanRetry(row, endpoints) {
          recovered := recovered + 1;
        } else {
          exhausted := exhausted + 1;
        }
        if !dryRun {
          after := after[id := Reconciled(row, endpoints, now)];
        }
      }
    }
    assert rows[..|rows|] == rows;
    r := ReconcileResult(|rows|, recovered, exhausted, untouched, dryRun);
  }

  class Repository {
    var deliveries: map<DeliveryId, Delivery>
    var endpoints: map<EndpointId, Endpoint>
    ghost var knownDeliveries: set<DeliveryId>
    ghost var knownEndpoints: set<EndpointId>
    ghost var issuedTokens: set<Token>

    ghost function Snapshot(): State
      reads this
    {
      State(deliveries, endpoints, knownDeliveries, knownEndpoints, issuedTokens)
    }

    /** The table invariants, which every method keeps. */
    ghost predicate Valid()
      reads this
    {
      OutboxRuns.Valid(Snapshot())
    }

    constructor ()
      ensures Valid() && Snapshot() == State(map[], map[], {}, {}, {})
    {
      deliveries, endpoints := map[], map[];
      knownDeliveries, knownEndpoints, issuedTokens := {}, {}, {};
    }

    method RemoveEndpoint(id: EndpointId, now: Time) returns (r: Result<Endpoint, RepositoryError>)
      requires Valid()
      modifies this
      ensures Valid()
      ensures Snapshot() == Apply(old(Snapshot()), DeleteEndpoint(id, now))
      ensures r == if id in old(endpoints) then Ok(old(endpoints)[id]) else Err(NotFound)
    {
      OutboxRuns.ValidPreserved(Snapshot(), DeleteEndpoint(id, now));
      if id !in endpoints {
        return Err(NotFound);
      }
      r := Ok(endpoints[id]);
      deliveries := map d | d in deliveries ::
        if deliveries[d].endpointId == id && !deliveries[d].status.Terminal()
        then Abandoned(deliveries[d], now) else deliveries[d];
      endpoints := endpoints - {id};
    }

    /** `targets` are the enabled endpoints that match the event; `freshIds` the uuids generated for them. */
    method EnqueueEvent(event: EventId, targets: seq<EndpointId>, freshIds: seq<DeliveryId>, now: Time, limit: int,
                        evicted: set<DeliveryId>)
      returns (r: Result<EnqueueResult, RepositoryError>)
      requires Enabled(Snapshot(), Enqueue(event, targets, freshIds, now, limit, evicted))
      requires Valid()
      modifies this
      ensures Valid()
      ensures Snapshot() == Apply(old(Snapshot()), Enqueue(event, targets, freshIds, now, limit, evicted))
      ensures r.Err? ==> r.error == StoreFull && Snapshot() == old(Snapshot())
      ensures r.Ok? ==> |deliveries| <= limit
      ensures r.Ok? ==> r.value.queued + r.value.duplicates == r.value.matched == |targets|
      ensures r.Ok? ==> |r.value.deliveryIds| == r.value.queued && Distinct(r.value.deliveryIds)
      ensures r.Ok? ==> forall id :: id in r.value.deliveryIds <==>
                          id !in old(deliveries) && id in InsertAll(old(deliveries), event, targets, freshIds, now)
    {
      OutboxRuns.ValidPreserved(Snapshot(), Enqueue(event, targets, freshIds, now, limit, evicted));
      assert forall id :: id in deliveries ==> OutboxRuns.RowValid(Snapshot(), id);
      var rows, ids := InsertRows(deliveries, event, targets, freshIds, now);
      if |evicted| < |rows| - limit {
        return Err(StoreFull);
      }
      OutboxRuns.RemovalSize(rows, evicted);
      deliveries := rows - evicted;
      knownDeliveries := knownDeliveries + set id | id in freshIds;
      r := Ok(EnqueueResult(|targets|, |ids|, |targets| - |ids|, ids));
    }

    /** `rows` is what the claim query returned, `leases` the uuid generated for each of them. */
    method ClaimDeliveries(rows: seq<DeliveryId>, leases: map<DeliveryId, Token>, now: Time, leaseMs: int, limit: int,
                           bypassCircuit: bool)
      returns (claimed: seq<ClaimedDelivery>)
      requires Distinct(rows) && Ids(rows) == leases.Keys
      requires Enabled(Snapshot(), Claim(leases, now, leaseMs, limit, bypassCircuit))
      requires Valid()
      modifies this
      ensures Valid()
      ensures Snapshot() == Apply(old(Snapshot()), Claim(leases, now, leaseMs, limit, bypassCircuit))
      ensures |claimed| == |rows|
      ensures forall i :: 0 <= i < |rows| ==>
                && rows[i] in deliveries && deliveries[rows[i]].endpointId in endpoints
                && claimed[i] == ClaimedDelivery(rows[i], deliveries[rows[i]],
                                                 Some(endpoints[deliveries[rows[i]].endpointId]))
    {
      hide OutboxRuns.Valid, LeasedRows, Enabled;
      OutboxRuns.ValidPreserved(Snapshot(), Claim(leases, now, leaseMs, limit, bypassCircuit));
      assert forall id :: id in rows ==> id in Ids(rows);
      ClaimedAreServed(Snapshot(), leases, now, leaseMs, limit, bypassCircuit);
      deliveries, claimed := LeaseRows(deliveries, endpoints, rows, leases, now, leaseMs);
      issuedTokens := issuedTokens + leases.Values;
    }

    method CompleteDelivery(id: DeliveryId, claimed: Delivery, report: Report, view: Option<EndpointView>, now: Time,
                            baseRetryDelayMs: int)
      returns (r: Result<Delivery, RepositoryError>)
      requires Valid()
      modifies this
      ensures Valid()
      ensures var step := Complete(id, claimed, report, view, now, baseRetryDelayMs);
              && Snapshot() == Apply(old(Snapshot()), step)
              && (r.Ok? <==> OutboxRows.OwnsLease(old(Snapshot()), id, claimed))
              && (r.Ok? ==> id in deliveries && r.value == deliveries[id])
              && (r.Ok? ==> OutboxRows.SettledBy(old(deliveries)[id], r.value, claimed, report, view, now,
                                                 baseRetryDelayMs))
              && (r.Err? ==> r.error == LeaseConflict && Snapshot() == old(Snapshot()))
    {
      OutboxRuns.ValidPreserved(Snapshot(), Complete(id, claimed, report, view, now, baseRetryDelayMs));
      OutboxRows.CompletionEffect(Snapshot(), Complete(id, claimed, report, view, now, baseRetryDelayMs));
      if id !in deliveries || !deliveries[id].status.Delivering? || claimed.leaseToken.None?
         || deliveries[id].leaseToken != claimed.leaseToken {
        return Err(LeaseConflict);
      }
      var row := Completed(deliveries[id], claimed, report, view, now, baseRetryDelayMs);
      deliveries := deliveries[id := row];
      if view.Some? && view.value.id in endpoints {
        var e := view.value.id;
        if report.success {
          endpoints := endpoints[e := CircuitClosed(endpoints[e]).(lastSuccessAt := Some(now))];
        } else if view.value.enabled {
          endpoints := endpoints[e := CircuitAfterFailure(endpoints[e], now)];
        }
      }
      r := Ok(row);
    }

    /** `rows` is what the scan of delivering rows returned. */
    method ReconcileLeases(rows: seq<DeliveryId>, now: Time, limit: int, dryRun: bool) returns (r: ReconcileResult)
      requires Distinct(rows)
      requires Enabled(Snapshot(), Reconcile(Ids(rows), now, limit, dryRun))
      requires Valid()
      modifies this
      ensures Valid()
      ensures Snapshot() == Apply(old(Snapshot()), Reconcile(Ids(rows), now, limit, dryRun))
      ensures r.scanned == |rows| == r.recovered + r.exhausted + r.untouched && r.dryRun == dryRun
      ensures r.recovered == |Expired(old(deliveries), endpoints, rows, now, true)|
      ensures r.exhausted == |Expired(old(deliveries), endpoints, rows, now, false)|
    {
      OutboxRuns.ValidPreserved(Snapshot(), Reconcile(Ids(rows), now, limit, dryRun));
      assert forall id :: id in rows ==> id in Ids(rows);
      deliveries, r := ReconcileRows(deliveries, endpoints, rows, now, dryRun);
    }

    method RetryOne(id: DeliveryId, now: Time) returns (r: Result<(Delivery, bool), RepositoryError>)
      requires Valid()
      modifies this
      ensures Valid()
      ensures Snapshot() == Apply(old(Snapshot()), RetryDelivery(id, now))
      ensures r.Ok? && r.value.1 <==>
                && id in old(deliveries) && old(deliveries)[id].status in {Retry, Exhausted}
                && OutboxRows.EndpointServes(old(Snapshot()), old(deliveries)[id])
      ensures r.Ok? ==> id in deliveries && r.value.0 == deliveries[id] && r.value.0.status.Pending?
      ensures r.Ok? && !r.value.1 ==> Snapshot() == old(Snapshot())
      ensures r == Err(NotFound) <==> id !in old(deliveries)
      ensures r == Err(StateConflict) <==>
                id in old(deliveries) && old(deliveries)[id].status in {Delivering, Succeeded}
    {
      OutboxRuns.ValidPreserved(Snapshot(), RetryDelivery(id, now));
      if id !in deliveries {
        return Err(NotFound);
      }
      var row := deliveries[id];
      if row.status.Pending? {
        return Ok((row, false));
      }
      if !row.status.Retry? && !row.status.Exhausted? {
        return Err(StateConflict);
      }
      if row.endpointId !in endpoints || !endpoints[row.endpointId].config.enabled {
        return Err(EndpointUnavailable);
      }
      deliveries := deliveries[id := Requeued(row, now)];
      r := Ok((deliveries[id], true));
    }

    /**
     `picked` are the dead letters the preview or the locking update returned, `failing` the selected ones whose
     endpoint is disabled or missing.  Replaying changes neither the second set nor anything outside the first.
     */
    method ReplayDeadLetters(sel: Selection, picked: set<DeliveryId>, failing: set<DeliveryId>, now: Time, limit: nat,
                             dryRun: bool)
      returns (r: ReplayResult)
      requires picked <= DeadLetters(Snapshot(), sel)
      requires dryRun ==> Limited(picked, DeadLetters(Snapshot(), sel), limit)
      requires !dryRun ==> Enabled(Snapshot(), Replay(picked, now, limit, false))
      requires !dryRun ==> Limited(failing, Unavailable(Snapshot(), sel), limit)
      requires Valid()
      modifies this
      ensures Valid()
      ensures Snapshot() == Apply(old(Snapshot()), Replay(if dryRun then {} else picked, now, limit, dryRun))
      ensures r.dryRun == dryRun && r.deliveryIds == picked && r.errors == if dryRun then {} else failing
      ensures Selected(old(Snapshot()), sel, r.deliveryIds) && Selected(old(Snapshot()), sel, r.errors)
      ensures forall id :: id in r.errors ==> !OutboxRows.EndpointServes(old(Snapshot()), old(deliveries)[id])
      // Below the limit nothing selected is left out.
      ensures dryRun && |DeadLetters(old(Snapshot()), sel)| <= limit ==> picked == DeadLetters(old(Snapshot()), sel)
      ensures !dryRun && |Unavailable(old(Snapshot()), sel)| <= limit ==> failing == Unavailable(old(Snapshot()), sel)
      ensures r.eligible == |r.deliveryIds| + |r.errors| && r.failed == |r.errors|
      ensures r.replayed == if dryRun then 0 else |r.deliveryIds|
      ensures r.deliveryIds !! r.errors && Unavailable(Snapshot(), sel) == Unavailable(old(Snapshot()), sel)
      ensures !dryRun ==> DeadLetters(Snapshot(), sel) == DeadLetters(old(Snapshot()), sel) - picked
    {
      hide OutboxRuns.Valid, Limited, DeadLetters, Unavailable, Selected, OutboxRows.EndpointServes, Replayable;
      DeadLettersSelected(Snapshot(), sel, picked);
      OutboxRuns.ValidPreserved(Snapshot(), Replay(if dryRun then {} else picked, now, limit, dryRun));
      if dryRun {
        DeadLettersSelected(Snapshot(), sel, {});
        LimitedSelects(picked, DeadLetters(Snapshot(), sel), limit);
        return ReplayResult(|picked|, 0, 0, true, picked, {});
      }
      LimitedSelects(failing, Unavailable(Snapshot(), sel), limit);
      UnavailableSelected(Snapshot(), sel, failing);
      ReplayedSets(Snapshot(), sel, picked, now, limit);
      deliveries := map id | id in deliveries ::
        if id in picked then Requeued(deliveries[id], now) else deliveries[id];
      r := ReplayResult(|picked| + |failing|, |picked|, |failing|, false, picked, failing);
    }

    /** With `ids` the whole eligible part of the echoed set goes; without, a bounded batch of eligible rows. */
    method PruneDeliveries(before: Time, ids: Option<set<DeliveryId>>, batch: set<DeliveryId>, limit: int, dryRun: bool)
      returns (chosen: set<DeliveryId>, deleted: nat)
      requires ids.None? ==> batch <= PruneEligible(Snapshot(), before, None) && |batch| <= limit
      requires Valid()
      modifies this
      ensures Valid()
      ensures Enabled(old(Snapshot()), Prune(before, ids, chosen, limit, dryRun))
      ensures Snapshot() == Apply(old(Snapshot()), Prune(before, ids, chosen, limit, dryRun))
      ensures deleted == if dryRun then 0 else |chosen|
    {
      chosen := batch;
      if ids.Some? {
        chosen := set id | id in deliveries && deliveries[id].status.Terminal() && deliveries[id].completedAt.Some?
                           && deliveries[id].completedAt.value < before && id in ids.value;
      }
      OutboxRuns.ValidPreserved(Snapshot(), Prune(before, ids, chosen, limit, dryRun));
      deleted := 0;
      if !dryRun {
        deliveries := deliveries - chosen;
        deleted := |chosen|;
      }
    }

    method ResetEndpointCircuit(id: EndpointId) returns (r: Result<Endpoint, RepositoryError>)
      requires Valid()
      modifies this
      ensures Valid()
      ensures Snapshot() == Apply(old(Snapshot()), ResetCircuit(id))
      ensures r.Err? <==> id !in old(endpoints)
      ensures r.Ok? ==> id in endpoints && r.value == endpoints[id]
                        && !r.value.circuitOpen && r.value.consecutiveFailures == 0
    {
      OutboxRuns.ValidPreserved(Snapshot(), ResetCircuit(id));
      if id !in endpoints {
        return Err(NotFound);
      }
      if endpoints[id].circuitOpen || endpoints[id].consecutiveFailures != 0 {
        endpoints := endpoints[id := CircuitClosed(endpoints[id])];
      }
      r := Ok(endpoints[id]);
    }
  }
}
