/**
 The keyed create operation: the phases in order, one committed store write after each, any number of
 attempts interleaved phase by phase, any fault in any remote request or store write, retried at will.
 The store lock is held for a whole phase, so one phase is one step here.
 */
module CreateOperation {
  import opened Prelude
  import opened ListmonkRemote
  import opened Provisioning
  import opened Segmentation
  import Allocation
  import Assignment
  import Manifest
  import Audience

  /** Where one attempt stands. */
  datatype Phase = Intent | Campaigns | SeedStamp | Segment | Window | Finalize | Finished(created: bool)

  /**
   What one step brings along: the request of the attempt, the verdict of the sample-size statistics on it, the clock,
   a fresh random seed, and the subscriber pages as they are now.
   */
  datatype Input = Input(
    attempt: nat, config: Config, statisticsOk: bool, now: Time, freshSeed: Seed, server: Audience.Server)

  const PAGE_SIZE := 500

  const SAFETY_LEAD_MS := 60_000

  /** An attempt reaches a phase only after the committed record carries what the phase builds on. */
  predicate Reached(stored: Option<Record>, phase: Phase) {
    match phase
    case Intent => true
    case Campaigns => stored.Some?
    case SeedStamp => stored.Some? && stored.value.campaignMappings != []
    case Segment => stored.Some? && stored.value.campaignMappings != [] && stored.value.seed.Some?
    case Window => stored.Some? && stored.value.listMappings != []
    case Finalize => stored.Some? && stored.value.listMappings != []
                     && (stored.value.config.autoLaunch ==> stored.value.launchAt.Some?)
    case Finished(_) => stored.Some? && stored.value.provisioned
  }

  lemma ReachedStays(a: Record, b: Record, phase: Phase)
    requires Evolves(a, b) && Reached(Some(a), phase)
    ensures Reached(Some(b), phase)
  {
  }

  /** Each committed record fixes what later ones say. */
  predicate LogOk(log: seq<Record>) {
    forall i, j :: 0 <= i <= j < |log| ==> Evolves(log[i], log[j])
  }

  lemma LogExtends(log: seq<Record>, rec: Record)
    requires LogOk(log) && (log != [] ==> Evolves(log[|log| - 1], rec))
    ensures LogOk(log + [rec])
  {
    forall i, j | 0 <= i <= j < |log + [rec]| ensures Evolves((log + [rec])[i], (log + [rec])[j]) {
      if i < |log| && j == |log| {
        EvolvesTransitive(log[i], log[|log| - 1], rec);
      }
    }
  }

  /** The variants of a record with the weights of its request. */
  function WeightedVariants(rec: Record): (r: seq<Assignment.Variant>)
    requires |rec.variants| == |rec.config.percentages|
    ensures |r| == |rec.variants| && Manifest.Weights(r) == rec.config.percentages
    ensures forall i :: 0 <= i < |r| ==> r[i].id == rec.variants[i].name
  {
    seq(|rec.variants|, i requires 0 <= i < |rec.variants| =>
      Assignment.Variant(rec.variants[i].name, rec.config.percentages[i]))
  }

  /** The audience of a request can be resolved from these pages and split by its weights. */
  predicate Splittable(config: Config, server: Audience.Server) {
    && (exists x :: x in config.sources && x > 0)
    && Audience.Resolvable(Audience.ScanAll(server, PAGE_SIZE, Audience.SourceLists(config.sources)))
    && Allocation.ValidWeights(config.percentages)
  }

  /** The slices of all groups, the holdout last. */
  function AllSlices(s: Slices): seq<seq<SubscriberId>> {
    s.variants + [s.holdout]
  }

  lemma PlannedTwice(r: Remote, c: CampaignId, first: Plan, second: Plan)
    requires c in r.campaigns
    ensures WithPlan(WithPlan(r, c, first), c, second) == WithPlan(r, c, second)
  {
  }

  /** The two requests of the launch for one campaign; `plan` is what they leave if they change anything. */
  method PutOnList(lm: Listmonk, c: CampaignId, list: ListId, sendAt: Time, ghost t: TestId)
    returns (sig: Signal, ghost plan: Plan)
    requires lm.Valid() && lm.AlwaysUnique(t) && c in lm.remote.campaigns
    modifies lm
    ensures lm.Valid() && lm.AlwaysUnique(t) && lm.nextTest == old(lm.nextTest)
    ensures plan.Planned? && plan.list == list && plan.sendAt == sendAt
    ensures lm.remote == old(lm.remote) || lm.remote == WithPlan(old(lm.remote), c, plan)
    ensures sig.Done? ==> plan.scheduled && lm.remote == WithPlan(old(lm.remote), c, plan)
    ensures sig.Failed? ==> sig.cause == RemoteError
    ensures old(lm.faults) == [] ==> sig.Done? && lm.faults == []
  {
    plan := Replanned(lm.remote.campaigns[c].plan, list, sendAt);
    sig := lm.UpdateCampaign(c, list, sendAt, t);
    if sig.Done? {
      PlannedTwice(old(lm.remote), c, plan, plan.(scheduled := true));
      sig := lm.ScheduleCampaign(c, t);
      if lm.remote.campaigns[c].plan.scheduled {
        plan := plan.(scheduled := true);
      }
    }
  }

  /** The lists of the variants and of the holdout have no member in common. */
  ghost predicate ListsApart(rec: Record, r: Remote) {
    && rec.holdoutList.Some? && rec.holdoutList.value in r.lists
    && (forall i :: 0 <= i < |rec.listMappings| ==>
          && rec.listMappings[i].resource in r.lists
          && r.lists[rec.listMappings[i].resource].members !! r.lists[rec.holdoutList.value].members)
    && forall i, j :: 0 <= i < j < |rec.listMappings| ==>
         r.lists[rec.listMappings[i].resource].members !! r.lists[rec.listMappings[j].resource].members
  }

  class Operation {
    const lm: Listmonk
    const sha: Assignment.Hash
    /** The textual id of a test. */
    const names: TestId -> string
    const fingerprint: Config -> string
    var stored: Option<Record>
    var attempts: map<nat, Phase>
    /** Every record ever committed, oldest first. */
    ghost var log: seq<Record>
    /** Every send window ever put into a scheduling request. */
    ghost var windows: set<Time>

    /** The recorded manifest and slices are the split of these members under the recorded seed. */
    ghost predicate SplitOf(rec: Record, members: seq<Assignment.Member>) {
      && rec.seed.Some? && rec.slices.Some? && rec.manifest.Some? && |rec.variants| == |rec.config.percentages|
      && Assignment.DistinctUuids(members) && Manifest.DistinctNumbers(members)
      && Manifest.IsSplit(sha, names(rec.test), rec.seed.value, members, WeightedVariants(rec),
                          TestPercentage(rec.config), rec.manifest.value, AllSlices(rec.slices.value))
    }

    /** So nobody is in two of the lists. */
    lemma SlicesDisjoint(rec: Record, members: seq<Assignment.Member>)
      requires SplitOf(rec, members)
      ensures Audience.Disjoint(AllSlices(rec.slices.value))
    {
      hide Manifest.IsManifest, Assignment.Rank, Assignment.Cuts, Assignment.Slice;
      var lists := AllSlices(rec.slices.value);
      forall g, h, id | 0 <= g < h < |lists| && id in lists[g] ensures id !in lists[h] {
        var sizes := Manifest.Sizes(rec.manifest.value.groups);
        Manifest.NoIdInTwoLists(sha, names(rec.test), rec.seed.value, members, sizes, id);
      }
    }

    /**
     The recorded split, in the record's own terms: the manifest names its variants in order and then the holdout, every
     list has as many subscribers as the manifest says, and the variants together have the test share of the audience,
     a tenth of it unless the request says otherwise.
     */
    lemma SplitMeans(rec: Record, members: seq<Assignment.Member>)
      requires SplitOf(rec, members)
      ensures var m, lists := rec.manifest.value, AllSlices(rec.slices.value);
              && rec.seed == Some(m.seed) && |m.groups| == |lists| == |rec.variants| + 1
              && (forall g :: 0 <= g < |rec.variants| ==> m.groups[g].variant == Some(rec.variants[g].name))
              && m.groups[|rec.variants|].variant == None
              && (forall g :: 0 <= g < |lists| ==> |lists[g]| == m.groups[g].expectedCount)
      ensures var share := match rec.config.testGroupPercentage case Some(p) => p case None => 10.0;
              |members| - |rec.slices.value.holdout|
              == Allocation.HalfUp(Allocation.Share(|members| as real, share, 100.0))
    {
      hide Manifest.IsSplit, Manifest.Weights, Allocation.HalfUp;
      Manifest.SplitCounts(sha, names(rec.test), rec.seed.value, members, WeightedVariants(rec),
                           TestPercentage(rec.config), rec.manifest.value, AllSlices(rec.slices.value));
    }

    /** So no subscriber is on two of the remote lists of the test. */
    lemma NobodyOnTwoLists(rec: Record, r: Remote, members: seq<Assignment.Member>)
      requires SplitOf(rec, members) && ListsMapped(rec, r)
      ensures ListsApart(rec, r)
    {
      hide SplitOf, HasRole;
      SlicesDisjoint(rec, members);
      var slices := rec.slices.value;
      var lists := AllSlices(slices);
      forall i | 0 <= i < |rec.listMappings|
        ensures rec.listMappings[i].resource in r.lists
        ensures r.lists[rec.listMappings[i].resource].members == Ids(slices.variants[i])
      {
        assert Serves(r, rec.listMappings[i].resource, rec.test, Some(rec.variants[i]), slices.variants[i]);
      }
      assert lists[|rec.listMappings|] == slices.holdout;
      assert forall i :: 0 <= i < |rec.listMappings| ==> lists[i] == slices.variants[i];
    }

    ghost predicate FromSeed(rec: Record) {
      rec.slices.Some? ==> exists members :: SplitOf(rec, members)
    }

    ghost predicate Valid()
      reads this, lm
    {
      && lm.Valid()
      && LogOk(log)
      && (stored.None? ==> log == [] && windows == {})
      && (stored.Some? ==>
            && log != [] && log[|log| - 1] == stored.value
            && stored.value.test < lm.nextTest && lm.AlwaysUnique(stored.value.test)
            && RecordOk(stored.value, lm.remote) && FromSeed(stored.value))
      && (forall w :: w in windows ==> stored.Some? && stored.value.launchAt == Some(w))
      && (forall a :: a in attempts ==> Reached(stored, attempts[a]))
    }

    constructor (remote: Listmonk, sha: Assignment.Hash, names: TestId -> string, fingerprint: Config -> string)
      requires remote.Valid()
      ensures Valid() && lm == remote && stored.None? && attempts == map[] && log == []
    {
      this.lm, this.sha, this.names, this.fingerprint := remote, sha, names, fingerprint;
      stored, attempts, log, windows := None, map[], [], {};
    }

    /** One committed store write, which like any write may fail, be lost, or be the last thing a process does. */
    method Commit(rec: Record) returns (sig: Signal)
      requires Valid() && RecordOk(rec, lm.remote) && rec.test < lm.nextTest && lm.AlwaysUnique(rec.test)
      requires FromSeed(rec) && (stored.Some? ==> Evolves(stored.value, rec))
      modifies this`stored, this`log, lm`faults
      ensures Valid()
      ensures (stored == old(stored) && log == old(log)) || (stored == Some(rec) && log == old(log) + [rec])
      ensures sig.Done? ==> stored == Some(rec)
      ensures sig.Failed? ==> sig.cause == RemoteError
      ensures old(lm.faults) == [] ==> sig.Done? && lm.faults == []
    {
      hide FromSeed, SplitOf, RecordOk;
      var f := lm.TakeFault();
      sig := SignalOf(f);
      if f.Effective() {
        LogExtends(log, rec);
        forall a | a in attempts ensures Reached(Some(rec), attempts[a]) {
          if stored.Some? {
            ReachedStays(stored.value, rec, attempts[a]);
          }
        }
        stored := Some(rec);
        log := log + [rec];
      }
    }

    /** The intent phase lets this request pass. */
    predicate Admits(config: Config, statisticsOk: bool)
      reads this
    {
      if stored.Some? then fingerprint(config) == fingerprint(stored.value.config)
      else Provisionable(config) && statisticsOk
    }

    /**
     Phase 1: record the create intent under its key, or find the record of an earlier attempt.  A different request
     under the same key is refused, and so is a new one that fails its checks; neither leaves a trace.
     */
    method RecordIntent(config: Config, statisticsOk: bool) returns (sig: Signal, next: Phase)
      requires Valid()
      modifies this`stored, this`log, lm`faults, lm`nextTest
      ensures Valid() && old(log) <= log
      ensures sig == Failed(KeyConflict) <==>
                old(stored).Some? && fingerprint(config) != fingerprint(old(stored).value.config)
      ensures sig == Failed(Unprovisionable) <==> old(stored).None? && !(Provisionable(config) && statisticsOk)
      ensures sig.Failed? ==> sig.cause in {RemoteError, KeyConflict, Unprovisionable}
      ensures !old(Admits(config, statisticsOk)) ==> stored == old(stored) && log == old(log)
      ensures stored.Some? ==> stored.value.config == if old(stored).Some? then old(stored).value.config else config
      ensures old(stored).Some? ==> stored == old(stored)
      // A new record starts with nothing but the request and its variants.
      ensures old(stored).None? && stored.Some? ==>
                && stored.value == Record(old(lm.nextTest), config, stored.value.variants, [], None, [], None, None,
                                          None, None, true, false)
                && |config.percentages| <= 3
                && stored.value.variants == VariantNames(|config.percentages|, names(stored.value.test))
      ensures sig.Done? ==> Reached(stored, next)
      ensures old(lm.faults) == [] && old(Admits(config, statisticsOk)) ==> sig.Done? && lm.faults == []
      ensures old(lm.faults) == [] ==> lm.faults == []
      ensures sig.Done? ==> next.Campaigns? || next.Finished?
    {
      next := Intent;
      if stored.Some? {
        if fingerprint(stored.value.config) != fingerprint(config) {
          return Failed(KeyConflict), next;
        }
        sig := Commit(stored.value);
        next := if stored.value.provisioned then Finished(false) else Campaigns;
        return;
      }
      if !Provisionable(config) || !statisticsOk {
        return Failed(Unprovisionable), next;
      }
      var t := lm.nextTest;
      var variants := VariantNames(|config.percentages|, names(t));
      var rec := Record(t, config, variants, [], None, [], None, None, None, None, true, false);
      lm.nextTest := t + 1;
      assert lm.AlwaysUnique(t);
      sig := Commit(rec);
      next := Campaigns;
    }

    /** Phase 2: campaigns. */
    method CampaignPhase() returns (sig: Signal, next: Phase)
      requires Valid() && Reached(stored, Campaigns)
      modifies this`stored, this`log, lm
      ensures Valid() && old(log) <= log && stored.Some?
      ensures stored.value == old(stored.value).(campaignMappings := stored.value.campaignMappings)
      ensures sig.Failed? ==> sig.cause == RemoteError
      ensures sig.Done? ==> Reached(stored, next)
      ensures old(lm.faults) == [] ==> sig.Done? && lm.faults == []
      ensures sig.Done? ==> next.SeedStamp? || next.Finalize?
    {
      hide FromSeed, LogOk, VariantSeq, Within, Without, Adoptable;
      next := Intent;
      var rec;
      sig, rec := ProvisionCampaigns(lm, stored.value);
      CampaignsNowClear(lm, stored.value);
      if sig.Done? {
        SplitKept(stored.value, rec);
        sig := Commit(rec);
        next := if rec.pending then SeedStamp else Finalize;
      }
    }

    /** Phase 3.25: stamp the assignment seed once. */
    method SeedPhase(freshSeed: Seed) returns (sig: Signal, next: Phase)
      requires Valid() && Reached(stored, SeedStamp)
      modifies this`stored, this`log, lm`faults
      ensures Valid() && old(log) <= log && stored.Some?
      ensures stored.value == old(stored.value)
              || (old(stored.value).seed.None? && stored.value == old(stored.value).(seed := Some(freshSeed)))
      ensures sig.Failed? ==> sig.cause == RemoteError
      ensures sig.Done? ==> Reached(stored, next)
      ensures old(lm.faults) == [] ==> sig.Done? && lm.faults == []
      ensures next == Segment
    {
      var rec := stored.value;
      if !rec.provisioned && rec.seed.None? {
        rec := rec.(seed := Some(freshSeed));
      }
      sig := Commit(rec);
      next := Segment;
    }

    /** Resolves the audience and splits it under the committed seed; nothing is written. */
    method Split(rec: Record, server: Audience.Server) returns (r: Option<(Manifest.AssignmentManifest, Slices)>)
      requires RecordOk(rec, lm.remote) && rec.seed.Some?
      ensures r.Some? <==> Splittable(rec.config, server)
      ensures r.Some? ==> |r.value.1.variants| == |rec.variants|
      ensures r.Some? ==> FromSeed(rec.(manifest := Some(r.value.0), slices := Some(r.value.1)))
    {
      hide RecordOk, Audience.Resolvable, Audience.ScanAll, Audience.SourceLists, Allocation.ValidWeights,
           Manifest.IsSplit;
      assert |rec.variants| == |rec.config.percentages| && 0.0 <= TestPercentage(rec.config) <= 100.0 by {
        RecordNumbers(rec, lm.remote);
      }
      ghost var members;
      var split;
      split, members := Audience.SegmentAudience(sha, server, PAGE_SIZE, rec.config.sources, WeightedVariants(rec),
                                                 TestPercentage(rec.config), names(rec.test), rec.seed.value);
      if split.Err? {
        return None;
      }
      var lists := split.value.1;
      var slices := Slices(lists[..|rec.variants|], lists[|rec.variants|]);
      assert AllSlices(slices) == lists;
      assert SplitOf(rec.(manifest := Some(split.value.0), slices := Some(slices)), members);
      r := Some((split.value.0, slices));
    }

    /** Phase 3: split the audience as it is now under the committed seed, and populate the lists. */
    method SegmentationPhase(server: Audience.Server) returns (sig: Signal, next: Phase)
      requires Valid() && Reached(stored, Segment)
      modifies this`stored, this`log, lm
      ensures Valid() && old(log) <= log && stored.Some?
      ensures var rec := stored.value;
              rec == old(stored.value).(listMappings := rec.listMappings, holdoutList := rec.holdoutList,
                                        slices := rec.slices, manifest := rec.manifest)
      ensures sig.Failed? ==>
                sig.cause == RemoteError || (sig.cause == NoSplit && !Splittable(stored.value.config, server))
      ensures sig.Done? ==> Reached(stored, next)
      ensures old(lm.faults) == [] ==> lm.faults == [] && (Splittable(stored.value.config, server) ==> sig.Done?)
      ensures next == Window
    {
      hide FromSeed, LogOk, Splittable;
      var rec := stored.value;
      next := Window;
      if rec.provisioned || rec.listMappings != [] {
        sig := Commit(rec);
        return;
      }
      var split := Split(rec, server);
      if split.None? {
        return Failed(NoSplit), next;
      }
      var slices := split.value.1;
      ListsNowClear(lm, rec);
      var lists, holdout;
      sig, lists, holdout := SegmentForHoldout(lm, rec.test, rec.variants, slices);
      assert RecordOk(rec, lm.remote);
      if sig.Done? {
        var rec' := rec.(manifest := Some(split.value.0), slices := Some(slices));
        SplitKept(rec', rec'.(listMappings := lists, holdoutList := Some(holdout)));
        sig := Commit(rec'.(listMappings := lists, holdoutList := Some(holdout)));
      }
    }

    /** Only seed, slices, manifest, request and test name matter for where the slices come from. */
    lemma SplitKept(a: Record, b: Record)
      requires FromSeed(a) && a.test == b.test && a.config == b.config && a.variants == b.variants
      requires a.seed == b.seed && a.slices == b.slices && a.manifest == b.manifest
      ensures FromSeed(b)
    {
      if a.slices.Some? {
        var members :| SplitOf(a, members);
        assert WeightedVariants(a) == WeightedVariants(b);
        assert SplitOf(b, members);
      }
    }

    /** Phase 3.5: stamp the auto-launch window once, before any scheduling request. */
    method WindowPhase(now: Time) returns (sig: Signal, next: Phase)
      requires Valid() && Reached(stored, Window)
      modifies this`stored, this`log, lm`faults
      ensures Valid() && old(log) <= log && stored.Some?
      ensures stored.value == old(stored.value).(launchAt := stored.value.launchAt)
      // A window already there stays; else it is the requested one, else a minute from now, and only for auto-launch.
      ensures var before, after := old(stored.value), stored.value;
              && (before.launchAt.Some? || !before.config.autoLaunch || before.provisioned ==> after == before)
              && (after.launchAt != before.launchAt ==>
                    if before.config.requestedLaunch.Some? then after.launchAt == before.config.requestedLaunch
                    else after.launchAt == Some(now + 60_000))
      ensures sig.Failed? ==> sig.cause == RemoteError
      ensures sig.Done? ==> Reached(stored, next)
      ensures old(lm.faults) == [] ==> sig.Done? && lm.faults == []
      ensures next == Finalize
    {
      hide FromSeed, LogOk;
      var rec := stored.value;
      if !rec.provisioned && rec.config.autoLaunch {
        rec := rec.(launchAt := SendWindow(rec, now));
      }
      SplitKept(stored.value, rec);
      sig := Commit(rec);
      next := Finalize;
    }

    lemma ReplanKeepsValid(before: Remote)
      requires lm.Valid() && LogOk(log) && stored.Some? && log != [] && log[|log| - 1] == stored.value
      requires stored.value.test < lm.nextTest && lm.AlwaysUnique(stored.value.test) && FromSeed(stored.value)
      requires forall w :: w in windows ==> stored.value.launchAt == Some(w)
      requires forall a :: a in attempts ==> Reached(stored, attempts[a])
      requires RecordOk(stored.value, before) && OnlyPlans(before, lm.remote) && PlansFit(stored.value, lm.remote)
      requires !stored.value.provisioned
      ensures Valid()
    {
      hide LogOk, FromSeed, Reached;
      PlansKeepRecord(stored.value, before, lm.remote);
    }

    /** One campaign is put on a list for the committed window, and then scheduled. */
    method ScheduleOne(c: CampaignId, list: ListId, sendAt: Time) returns (sig: Signal)
      requires Valid() && stored.Some? && stored.value.launchAt == Some(sendAt)
      requires stored.value.config.autoLaunch && !stored.value.provisioned && c in lm.remote.campaigns
      modifies this`windows, lm
      ensures Valid() && OnlyPlans(old(lm.remote), lm.remote)
      ensures sig.Done? ==> lm.remote == WithPlan(old(lm.remote), c, Planned(list, sendAt, true))
      ensures sig.Failed? ==> sig.cause == RemoteError
      ensures old(lm.faults) == [] ==> sig.Done? && lm.faults == []
    {
      hide RecordOk, LogOk, Reached, FromSeed, PlansFit, OnlyPlans, WithPlan;
      ghost var rec, before, plan := stored.value, lm.remote, Planned(list, sendAt, true);
      RecordPlansFit(rec, before);
      windows := windows + {sendAt};
      sig, plan := PutOnList(lm, c, list, sendAt, rec.test);
      ReplannedFits(rec, before, lm.remote, c, plan);
      ReplanKeepsValid(before);
    }

    /**
     The launch loop: every campaign is put on the list of its variant for the one committed window, then scheduled.
     */
    method ScheduleAll(campaigns: seq<Mapping>, lists: seq<Mapping>, sendAt: Time) returns (sig: Signal)
      requires Valid() && stored.Some? && stored.value.launchAt == Some(sendAt)
      requires stored.value.config.autoLaunch && !stored.value.provisioned
      requires forall m :: m in campaigns ==> m.resource in lm.remote.campaigns
      requires forall i, j :: 0 <= i < j < |campaigns| ==> campaigns[i].resource != campaigns[j].resource
      modifies this`windows, lm
      ensures Valid() && OnlyPlans(old(lm.remote), lm.remote)
      ensures sig.Done? ==> AllScheduled(lm.remote, campaigns, lists, sendAt)
      ensures sig.Failed? ==> sig.cause == RemoteError || exists m :: m in campaigns && FindList(lists, m.variant).None?
      ensures old(lm.faults) == [] ==> lm.faults == []
                                       && (sig.Done? || exists m :: m in campaigns && FindList(lists, m.variant).None?)
    {
      hide RecordOk, LogOk, Reached, FromSeed, FindList, AllScheduled, PlansFit, Valid;
      NothingPlanned(lm.remote, campaigns, lists, sendAt);
      for i := 0 to |campaigns|
        invariant Valid() && OnlyPlans(old(lm.remote), lm.remote)
        invariant AllScheduled(lm.remote, campaigns[..i], lists, sendAt)
        invariant old(lm.faults) == [] ==> lm.faults == []
      {
        var m := campaigns[i];
        var list := FindList(lists, m.variant);
        if list.None? {
          return Failed(NoListMapping);
        }
        ghost var before := lm.remote;
        sig := ScheduleOne(m.resource, list.value, sendAt);
        PlansCompose(old(lm.remote), before, lm.remote);
        if !sig.Done? {
          return;
        }
        OneMoreScheduled(before, lm.remote, campaigns, lists, sendAt, i);
      }
      assert campaigns[..|campaigns|] == campaigns;
      sig := Done;
    }

    /**
     Phase 4: schedule when asked to, then mark the record provisioned.  A provisioned auto-launch record has every
     campaign scheduled on its own variant's list at the committed window.
     */
    method FinalPhase(now: Time) returns (sig: Signal, next: Phase)
      requires Valid() && Reached(stored, Finalize)
      modifies this`stored, this`log, this`windows, lm
      ensures Valid() && old(log) <= log && stored.Some?
      ensures var rec := stored.value;
              rec == old(stored.value).(launchAt := rec.launchAt, pending := rec.pending,
                                        provisioned := rec.provisioned)
      ensures sig.Failed? ==> sig.cause == RemoteError
      ensures sig.Done? ==> Reached(stored, next)
      ensures stored.value.provisioned && stored.value.config.autoLaunch ==> Launched(stored.value, lm.remote)
      ensures old(lm.faults) == [] ==> sig.Done? && lm.faults == []
      ensures next == Finished(true)
    {
      hide FromSeed, LogOk, AllScheduled, Launched, CampaignsMapped, ListsMapped, FindList;
      var rec := stored.value;
      next := Finished(true);
      if rec.provisioned {
        sig := Commit(rec);
        return;
      }
      if rec.config.requestedLaunch.Some? {
        rec := rec.(launchAt := rec.config.requestedLaunch);
      }
      if rec.config.autoLaunch {
        var sendAt := SendWindow(rec, now);
        rec := rec.(launchAt := sendAt);
        MappingsReady(stored.value, lm.remote);
        sig := ScheduleAll(rec.campaignMappings, rec.listMappings, sendAt.value);
        if !sig.Done? {
          return;
        }
        AllLaunched(stored.value, lm.remote);
      }
      rec := rec.(pending := false, provisioned := true);
      SplitKept(stored.value, rec);
      FinalRecord(stored.value, rec, lm.remote);
      sig := Commit(rec);
    }

    method Standing(attempt: nat) returns (phase: Phase)
      requires Valid()
      ensures Reached(stored, phase) && phase == if attempt in attempts then attempts[attempt] else Intent
    {
      phase := if attempt in attempts then attempts[attempt] else Intent;
    }

    method Advance(attempt: nat, phase: Phase)
      requires Valid() && (phase.Intent? || Reached(stored, phase))
      modifies this`attempts
      ensures Valid() && attempts == old(attempts)[attempt := phase]
    {
      attempts := attempts[attempt := phase];
    }

    /** Nothing that the input brings along stands in the way of creation. */
    predicate Unobstructed(input: Input)
      reads this
    {
      && Admits(input.config, input.statisticsOk)
      && Splittable(if stored.Some? then stored.value.config else input.config, input.server)
    }

    /**
     The attempt named by the input runs its next phase; a phase that throws or crashes sends it back to the start.
     */
    method Step(input: Input) returns (sig: Signal)
      requires Valid()
      modifies this, lm
      ensures Valid() && old(log) <= log
      ensures stored.Some? ==>
                stored.value.config == if old(stored).Some? then old(stored).value.config else input.config
      ensures old(stored).Some? ==> stored.Some?
      ensures sig.Failed? ==> sig.cause in {RemoteError, KeyConflict, Unprovisionable, NoSplit}
      ensures old(Unobstructed(input)) && sig.Failed? ==> sig.cause == RemoteError
      ensures input.attempt in attempts && old(attempts.Keys) <= attempts.Keys
      ensures var before := if input.attempt in old(attempts) then old(attempts)[input.attempt] else Intent;
              old(lm.faults == [] && Unobstructed(input)) ==>
                lm.faults == [] && (Remaining(attempts[input.attempt]) < Remaining(before)
                                    || (before.Finished? && attempts[input.attempt].Finished?))
    {
      hide Valid, LogOk, RecordOk, Splittable, Provisionable, VariantNames, Launched;
      var phase := Standing(input.attempt);
      var next := phase;
      sig := Done;
      match phase {
        case Intent => sig, next := RecordIntent(input.config, input.statisticsOk);
        case Campaigns => sig, next := CampaignPhase();
        case SeedStamp => sig, next := SeedPhase(input.freshSeed);
        case Segment => sig, next := SegmentationPhase(input.server);
        case Window => sig, next := WindowPhase(input.now);
        case Finalize => sig, next := FinalPhase(input.now);
        case Finished(_) =>
      }
      Advance(input.attempt, if sig.Done? then next else Intent);
    }

    /** Steps an attempt still needs when nothing goes wrong. */
    ghost function Remaining(phase: Phase): nat {
      match phase
      case Intent => 6
      case Campaigns => 5
      case SeedStamp => 4
      case Segment => 3
      case Window => 2
      case Finalize => 1
      case Finished(_) => 0
    }

    /**
     Recovery: from whatever a run left behind, once the faults are over a fresh attempt that nothing obstructs
     completes the create.
     */
    method Recover(attempt: nat, config: Config, inputs: seq<Input>)
      requires Valid() && lm.faults == [] && attempt !in attempts && |inputs| == 6
      requires forall n :: 0 <= n < |inputs| ==> inputs[n].attempt == attempt && inputs[n].config == config
      requires forall n :: 0 <= n < |inputs| ==> Unobstructed(inputs[n])
      modifies this, lm
      ensures Valid() && attempt in attempts && attempts[attempt].Finished?
      ensures stored.Some? && stored.value.provisioned
      ensures stored.value.config.autoLaunch ==> Launched(stored.value, lm.remote)
    {
      hide Valid, Splittable, Provisionable, Launched;
      var phase := Intent;
      for n := 0 to |inputs|
        invariant Valid() && lm.faults == []
        invariant forall m :: 0 <= m < |inputs| ==> Unobstructed(inputs[m])
        invariant phase == if attempt in attempts then attempts[attempt] else Intent
        invariant n > 0 ==> attempt in attempts
        invariant Remaining(phase) <= 6 - n
      {
        var sig := Step(inputs[n]);
        phase := attempts[attempt];
      }
      FinishedMeans(attempt);
    }

    lemma FinishedMeans(attempt: nat)
      requires Valid() && attempt in attempts && attempts[attempt].Finished?
      ensures stored.Some? && stored.value.provisioned
      ensures stored.value.config.autoLaunch ==> Launched(stored.value, lm.remote)
    {
    }

    /** What validity means for the remote, the record and the log. */
    lemma ValidMeans()
      requires Valid()
      ensures stored.Some? ==> forall k :: 0 <= k < |lm.history| ==> Unique(lm.history[k], stored.value.test)
      ensures forall a :: a in attempts && attempts[a].Finished? ==>
                && stored.Some? && stored.value.provisioned
                && CampaignsMapped(stored.value, lm.remote) && ListsMapped(stored.value, lm.remote)
                && (stored.value.config.autoLaunch ==> Launched(stored.value, lm.remote))
                && exists members :: SplitOf(stored.value, members)
      ensures stored.Some? && stored.value.listMappings != [] ==> ListsApart(stored.value, lm.remote)
      ensures stored.Some? ==> PlansFit(stored.value, lm.remote)
      ensures stored.Some? ==> |stored.value.variants| in {2, 3} && Distinct(stored.value.variants)
                               && 0.0 < TestPercentage(stored.value.config) <= 100.0
      ensures forall i, j :: 0 <= i <= j < |log| ==> Evolves(log[i], log[j])
      ensures forall w, v :: w in windows && v in windows ==> w == v
    {
      hide Unique, Provisionable, OneToOne, Serves, Launched, PlansFit, SplitOf, ListsApart;
      RecordVariants();
      if stored.Some? && stored.value.listMappings != [] {
        var members :| SplitOf(stored.value, members);
        NobodyOnTwoLists(stored.value, lm.remote, members);
      }
    }

    lemma RecordVariants()
      requires Valid()
      ensures stored.Some? ==> |stored.value.variants| in {2, 3} && Distinct(stored.value.variants)
                               && 0.0 < TestPercentage(stored.value.config) <= 100.0
    {
      hide FromSeed, LogOk, CampaignsMapped, ListsMapped, PlansFit, Launched;
    }

    /**
     Any run of any number of attempts.  At every moment of the run the test has at most one campaign per
     variant, one list per variant and one holdout list; a finished create has its mappings one to one with
     the variants and its lists filled with exactly their slices; what was committed once stays.
     */
    method Run(inputs: seq<Input>)
      requires Valid()
      modifies this, lm
      ensures Valid()
      ensures stored.Some? ==> forall k :: 0 <= k < |lm.history| ==> Unique(lm.history[k], stored.value.test)
      ensures forall a :: a in attempts && attempts[a].Finished? ==>
                && stored.Some? && stored.value.provisioned
                && CampaignsMapped(stored.value, lm.remote) && ListsMapped(stored.value, lm.remote)
                && (stored.value.config.autoLaunch ==> Launched(stored.value, lm.remote))
                && exists members :: SplitOf(stored.value, members)
      ensures stored.Some? && stored.value.listMappings != [] ==> ListsApart(stored.value, lm.remote)
      ensures stored.Some? ==> PlansFit(stored.value, lm.remote)
      ensures stored.Some? ==> |stored.value.variants| in {2, 3} && Distinct(stored.value.variants)
                               && 0.0 < TestPercentage(stored.value.config) <= 100.0
      ensures forall i, j :: 0 <= i <= j < |log| ==> Evolves(log[i], log[j])
      ensures forall w, v :: w in windows && v in windows ==> w == v
    {
      hide Valid;
      for n := 0 to |inputs|
        invariant Valid()
      {
        var sig := Step(inputs[n]);
      }
      ValidMeans();
    }
  }

  lemma RecordNumbers(rec: Record, r: Remote)
    requires RecordOk(rec, r)
    ensures |rec.variants| == |rec.config.percentages| && 0.0 <= TestPercentage(rec.config) <= 100.0
  {
  }

  /** The committed window, else the requested one, else a safe lead from now. */
  function SendWindow(rec: Record, now: Time): (w: Option<Time>)
    ensures w.Some?
  {
    if rec.launchAt.Some? then rec.launchAt
    else if rec.config.requestedLaunch.Some? then rec.config.requestedLaunch
    else Some(now + SAFETY_LEAD_MS)
  }

  /** Only the plans of campaigns differ. */
  ghost predicate OnlyPlans(a: Remote, b: Remote) {
    && b.lists == a.lists && b.campaigns.Keys == a.campaigns.Keys
    && forall c :: c in a.campaigns ==> b.campaigns[c] == a.campaigns[c].(plan := b.campaigns[c].plan)
  }

  lemma NothingPlanned(r: Remote, campaigns: seq<Mapping>, lists: seq<Mapping>, sendAt: Time)
    ensures OnlyPlans(r, r) && AllScheduled(r, campaigns[..0], lists, sendAt)
  {
  }

  lemma PlansCompose(a: Remote, b: Remote, c: Remote)
    requires OnlyPlans(a, b) && OnlyPlans(b, c)
    ensures OnlyPlans(a, c)
  {
  }

  lemma ReplannedFits(rec: Record, before: Remote, after: Remote, c: CampaignId, plan: Plan)
    requires PlansFit(rec, before) && c in before.campaigns && rec.config.autoLaunch
    requires plan.Planned? && rec.launchAt == Some(plan.sendAt)
    requires after == before || after == WithPlan(before, c, plan)
    ensures OnlyPlans(before, after) && PlansFit(rec, after)
  {
  }

  lemma RecordPlansFit(rec: Record, r: Remote)
    requires RecordOk(rec, r)
    ensures PlansFit(rec, r)
  {
  }

  lemma PlansKeepRecord(rec: Record, before: Remote, after: Remote)
    requires RecordOk(rec, before) && OnlyPlans(before, after) && PlansFit(rec, after) && !rec.provisioned
    ensures RecordOk(rec, after)
  {
    hide Provisionable, OneToOne;
    if rec.listMappings != [] {
      forall i | 0 <= i < |rec.variants|
        ensures Serves(after, rec.listMappings[i].resource, rec.test, Some(rec.variants[i]),
                       rec.slices.value.variants[i])
      {
        assert Serves(before, rec.listMappings[i].resource, rec.test, Some(rec.variants[i]),
                      rec.slices.value.variants[i]);
      }
    }
  }

  /** The first list mapped for a variant. */
  function FindList(lists: seq<Mapping>, v: VariantId): (r: Option<ListId>)
    ensures r.None? <==> forall l :: l in lists ==> l.variant != v
    ensures r.Some? ==> Mapping(v, r.value) in lists
  {
    if lists == [] then None
    else if lists[0].variant == v then Some(lists[0].resource)
    else FindList(lists[1..], v)
  }

  /** Every campaign is scheduled for that time on the list of its variant. */
  ghost predicate AllScheduled(r: Remote, campaigns: seq<Mapping>, lists: seq<Mapping>, sendAt: Time) {
    forall m :: m in campaigns ==>
      && m.resource in r.campaigns && FindList(lists, m.variant).Some?
      && r.campaigns[m.resource].plan == Planned(FindList(lists, m.variant).value, sendAt, true)
  }

  lemma OneMoreScheduled(before: Remote, after: Remote, campaigns: seq<Mapping>, lists: seq<Mapping>, sendAt: Time,
                         i: nat)
    requires i < |campaigns| && AllScheduled(before, campaigns[..i], lists, sendAt)
    requires forall i, j :: 0 <= i < j < |campaigns| ==> campaigns[i].resource != campaigns[j].resource
    requires FindList(lists, campaigns[i].variant).Some? && campaigns[i].resource in before.campaigns
    requires after == WithPlan(before, campaigns[i].resource,
                               Planned(FindList(lists, campaigns[i].variant).value, sendAt, true))
    ensures AllScheduled(after, campaigns[..i + 1], lists, sendAt)
  {
    hide FindList;
    forall m | m in campaigns[..i] ensures m.resource != campaigns[i].resource {
    }
    assert campaigns[..i + 1] == campaigns[..i] + [campaigns[i]];
  }

  /** With both mappings recorded, the launch finds every campaign and a list for each. */
  lemma MappingsReady(rec: Record, r: Remote)
    requires RecordOk(rec, r) && rec.listMappings != []
    ensures forall m :: m in rec.campaignMappings ==> m.resource in r.campaigns
    ensures forall i, j :: 0 <= i < j < |rec.campaignMappings| ==>
              rec.campaignMappings[i].resource != rec.campaignMappings[j].resource
    ensures forall m :: m in rec.campaignMappings ==> FindList(rec.listMappings, m.variant).Some?
  {
    hide Provisionable, Serves, FindList, PlansFit, Launched;
    forall m | m in rec.campaignMappings ensures FindList(rec.listMappings, m.variant).Some? {
      assert m.variant in VariantsOf(rec.campaignMappings);
      var i :| 0 <= i < |rec.variants| && rec.variants[i] == m.variant;
      assert rec.listMappings[i] in rec.listMappings && rec.listMappings[i].variant == m.variant;
    }
  }

  lemma AllLaunched(rec: Record, r: Remote)
    requires RecordOk(rec, r) && rec.listMappings != [] && rec.launchAt.Some?
    requires AllScheduled(r, rec.campaignMappings, rec.listMappings, rec.launchAt.value)
    ensures Launched(rec, r)
  {
    hide Provisionable, Serves, FindList, PlansFit, CampaignsMapped;
    forall m, l | m in rec.campaignMappings && l in rec.listMappings && m.variant == l.variant
      ensures FindList(rec.listMappings, m.variant) == Some(l.resource)
    {
      var found := Mapping(m.variant, FindList(rec.listMappings, m.variant).value);
      var i :| 0 <= i < |rec.listMappings| && rec.listMappings[i] == l;
      var j :| 0 <= j < |rec.listMappings| && rec.listMappings[j] == found;
      assert rec.variants[i] == rec.variants[j];
    }
  }

  /** Marking a record provisioned keeps its promises once the launch, if any, is done. */
  lemma FinalRecord(rec: Record, final: Record, r: Remote)
    requires RecordOk(rec, r) && rec.listMappings != [] && !rec.provisioned
    requires final == rec.(launchAt := final.launchAt, pending := false, provisioned := true)
    requires final.launchAt == rec.launchAt
             || (!rec.config.autoLaunch && final.launchAt == rec.config.requestedLaunch)
    requires rec.config.autoLaunch ==> Launched(rec, r)
    ensures RecordOk(final, r)
  {
    hide Provisionable, OneToOne, Serves;
  }

  lemma CampaignsNowClear(lm: Listmonk, rec: Record)
    requires lm.Valid() && lm.AlwaysUnique(rec.test)
    ensures !CampaignTagsConfused(lm.remote, rec)
  {
    assert Unique(lm.history[|lm.history| - 1], rec.test);
    CampaignTagsClear(lm.remote, rec);
  }

  lemma ListsNowClear(lm: Listmonk, rec: Record)
    requires lm.Valid() && lm.AlwaysUnique(rec.test)
    ensures !ListTagsConfused(lm.remote, rec.test)
  {
    assert Unique(lm.history[|lm.history| - 1], rec.test);
    ListTagsClear(lm.remote, rec.test);
  }
}
