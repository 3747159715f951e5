/**
 The remote Listmonk as the A/B test provisioner sees it: tagged campaigns, tagged lists with
 members, and requests any of which may be refused, lose its acknowledgement, or be cut short
 by a crash of the caller before or after it takes effect.
 */
module ListmonkRemote {
  import opened Prelude

  type TestId = nat
  type CampaignId = nat
  type ListId = nat
  type SubscriberId = nat
  type Time = int

  datatype VariantId = VariantId(name: string)

  /** To whom and when a campaign goes out: still as it was created, or on one list at a time, once it is scheduled. */
  datatype Plan = AsCreated | Planned(list: ListId, sendAt: Time, scheduled: bool)

  /** A campaign tagged `abtest:<test>` and `variant:<v>` for each `v` in `variantTags`. */
  datatype Campaign = Campaign(test: TestId, variantTags: seq<VariantId>, plan: Plan)

  /** A list tagged `abtest:<test>`, possibly with role and variant tags. */
  datatype SubscriberList = SubscriberList(
    test: TestId, holdoutRole: bool, variantRole: bool, variantTags: seq<VariantId>, members: set<SubscriberId>)

  datatype Remote = Remote(campaigns: map<CampaignId, Campaign>, lists: map<ListId, SubscriberList>)

  /** What befalls one request. */
  datatype Fault = Healthy | Refused | LostAck | CrashBefore | CrashAfter {
    /** The request takes effect. */
    predicate Effective() { Healthy? || LostAck? || CrashAfter? }
  }

  datatype Cause = RemoteError | AmbiguousTags | DoublyTagged | Unprovisionable | KeyConflict | NoSplit | NoListMapping

  /** How a call ends for the caller: normally, by throwing, or with the whole process gone. */
  datatype Signal = Done | Failed(cause: Cause) | Crashed

  function SignalOf(f: Fault): Signal {
    if f.Healthy? then Done else if f.Refused? || f.LostAck? then Failed(RemoteError) else Crashed
  }

  // ---------------------------------------------------------------------------------
  // Uniqueness of a test's resources
  // ---------------------------------------------------------------------------------

  /** Each campaign of `t` carries one variant tag, and no two carry the same one. */
  predicate CampaignsUnique(r: Remote, t: TestId) {
    && (forall c :: c in r.campaigns && r.campaigns[c].test == t ==> |r.campaigns[c].variantTags| == 1)
    && (forall a, b :: a in r.campaigns && b in r.campaigns && r.campaigns[a].test == t && r.campaigns[b].test == t
                       && r.campaigns[a].variantTags == r.campaigns[b].variantTags
                       ==> a == b)
  }

  /** A list is either a holdout list or the list of one variant. */
  predicate WellTagged(l: SubscriberList) {
    if l.holdoutRole then !l.variantRole && l.variantTags == [] else l.variantRole && |l.variantTags| == 1
  }

  /** Each list of `t` has one role, and no two lists have the same one. */
  predicate ListsUnique(r: Remote, t: TestId) {
    && (forall l :: l in r.lists && r.lists[l].test == t ==> WellTagged(r.lists[l]))
    && (forall a, b :: a in r.lists && b in r.lists && r.lists[a].test == t && r.lists[b].test == t
                       && r.lists[a].holdoutRole == r.lists[b].holdoutRole
                       && r.lists[a].variantTags == r.lists[b].variantTags
                       ==> a == b)
  }

  /** At most one campaign per variant, one list per variant and one holdout list. */
  predicate Unique(r: Remote, t: TestId) {
    CampaignsUnique(r, t) && ListsUnique(r, t)
  }

  function CampaignsOf(r: Remote, t: TestId): set<CampaignId> {
    set c | c in r.campaigns && r.campaigns[c].test == t
  }

  function ListsOf(r: Remote, t: TestId): set<ListId> {
    set l | l in r.lists && r.lists[l].test == t
  }

  predicate NoCampaign(r: Remote, t: TestId, v: VariantId) {
    forall c :: c in r.campaigns && r.campaigns[c].test == t ==> v !in r.campaigns[c].variantTags
  }

  /** No list of `t` with this role (`None` is the holdout role). */
  predicate NoList(r: Remote, t: TestId, role: Option<VariantId>) {
    forall l :: l in r.lists && r.lists[l].test == t ==>
      if role.None? then !r.lists[l].holdoutRole else role.value !in r.lists[l].variantTags
  }

  /** Everything tagged so far is tagged for a test id below `bound`. */
  predicate TestsBelow(r: Remote, bound: TestId) {
    && (forall c :: c in r.campaigns ==> r.campaigns[c].test < bound)
    && (forall l :: l in r.lists ==> r.lists[l].test < bound)
  }

  predicate IdsBelow(r: Remote, bound: nat) {
    (forall c :: c in r.campaigns ==> c < bound) && (forall l :: l in r.lists ==> l < bound)
  }

  /** The tags (not the members) of a list with the given role. */
  predicate HasRole(l: SubscriberList, t: TestId, role: Option<VariantId>) {
    && l.test == t
    && (if role.None? then l.holdoutRole && !l.variantRole && l.variantTags == []
        else !l.holdoutRole && l.variantRole && l.variantTags == [role.value])
  }

  /** The tags of a campaign that serves one variant. */
  predicate ServesVariant(c: Campaign, t: TestId, v: VariantId) {
    c.test == t && c.variantTags == [v]
  }

  function Draft(t: TestId, v: VariantId): (c: Campaign)
    ensures ServesVariant(c, t, v) && c.plan.AsCreated?
  {
    Campaign(t, [v], AsCreated)
  }

  /** Nothing is planned in `b` that was not planned just so in `a`. */
  predicate NoNewPlans(a: Remote, b: Remote) {
    forall c :: c in b.campaigns && b.campaigns[c].plan.Planned? ==>
      c in a.campaigns && a.campaigns[c] == b.campaigns[c]
  }

  function NewList(t: TestId, role: Option<VariantId>): SubscriberList {
    SubscriberList(t, role.None?, role.Some?, if role.Some? then [role.value] else [], {})
  }

  /** The state is one the remote may be in: ids and test ids handed out, resources of `t` unique. */
  predicate Sane(r: Remote, t: TestId, ids: nat, tests: TestId) {
    IdsBelow(r, ids) && TestsBelow(r, tests) && Unique(r, t)
  }

  lemma AddCampaignKeepsSane(r: Remote, t: TestId, id: CampaignId, v: VariantId, tests: TestId)
    requires Sane(r, t, id, tests) && NoCampaign(r, t, v) && t < tests
    ensures id !in r.campaigns
    ensures Sane(r.(campaigns := r.campaigns[id := Draft(t, v)]), t, id + 1, tests)
  {
    forall c | c in r.campaigns && r.campaigns[c].test == t ensures r.campaigns[c].variantTags != [v] {
      assert v in [v];
    }
  }

  lemma AddListKeepsSane(r: Remote, t: TestId, id: ListId, role: Option<VariantId>, tests: TestId)
    requires Sane(r, t, id, tests) && NoList(r, t, role) && t < tests
    ensures id !in r.lists
    ensures Sane(r.(lists := r.lists[id := NewList(t, role)]), t, id + 1, tests)
  {
    forall l | l in r.lists && r.lists[l].test == t
      ensures !(r.lists[l].holdoutRole == role.None? && r.lists[l].variantTags == NewList(t, role).variantTags)
    {
      assert role.Some? ==> role.value in NewList(t, role).variantTags;
    }
  }

  lemma RemovalKeepsSane(r: Remote, t: TestId, id: nat, ids: nat, tests: TestId)
    requires Sane(r, t, ids, tests)
    ensures Sane(r.(campaigns := r.campaigns - {id}), t, ids, tests)
    ensures Sane(r.(lists := r.lists - {id}), t, ids, tests)
  {
  }

  lemma PlansKeepSane(r: Remote, t: TestId, id: CampaignId, plan: Plan, ids: nat, tests: TestId)
    requires Sane(r, t, ids, tests) && id in r.campaigns
    ensures Sane(WithPlan(r, id, plan), t, ids, tests)
  {
  }

  lemma MembersKeepSane(r: Remote, t: TestId, id: ListId, members: set<SubscriberId>, ids: nat, tests: TestId)
    requires Sane(r, t, ids, tests) && id in r.lists
    ensures Sane(WithMembers(r, id, members), t, ids, tests)
  {
  }

  class Listmonk {
    var remote: Remote
    var nextId: nat
    /** The faults to come; once used up every request is healthy. */
    var faults: seq<Fault>
    /** Test ids handed out so far are below this one. */
    var nextTest: TestId
    /** Every state the remote has been in. */
    ghost var history: seq<Remote>

    ghost predicate Valid()
      reads `remote, `nextId, `nextTest, `history
    {
      && IdsBelow(remote, nextId)
      && history != [] && history[|history| - 1] == remote
      && forall k :: 0 <= k < |history| ==> TestsBelow(history[k], nextTest)
    }

    /** Test `t` had unique resources at every moment so far. */
    ghost predicate AlwaysUnique(t: TestId)
      reads `history
    {
      forall k :: 0 <= k < |history| ==> Unique(history[k], t)
    }

    method TakeFault() returns (f: Fault)
      modifies this`faults
      ensures old(faults) == [] ==> f.Healthy? && faults == []
    {
      f := Healthy;
      if faults != [] {
        f := faults[0];
        faults := faults[1..];
      }
    }

    lemma NowSane(t: TestId)
      requires Valid() && AlwaysUnique(t)
      ensures Sane(remote, t, nextId, nextTest)
    {
      assert Unique(history[|history| - 1], t) && TestsBelow(history[|history| - 1], nextTest);
    }

    /** The remote moves to state `r`, having handed out ids below `ids`. */
    method Become(r: Remote, ids: nat, ghost t: TestId)
      requires Valid() && AlwaysUnique(t) && nextId <= ids && Sane(r, t, ids, nextTest)
      modifies this`remote, this`history, this`nextId
      ensures Valid() && AlwaysUnique(t) && remote == r && nextId == ids
    {
      remote, nextId, history := r, ids, history + [r];
    }

    method CreateCampaign(t: TestId, v: VariantId) returns (sig: Signal, id: CampaignId)
      requires Valid() && t < nextTest
      requires AlwaysUnique(t) && NoCampaign(remote, t, v)
      modifies this
      ensures Valid() && AlwaysUnique(t) && nextTest == old(nextTest)
      ensures id !in old(remote).campaigns
      ensures remote == old(remote)
              || remote == old(remote).(campaigns := old(remote).campaigns[id := Draft(t, v)])
      ensures sig.Done? ==> id in remote.campaigns
      ensures sig.Failed? ==> sig.cause == RemoteError
      ensures old(faults) == [] ==> sig.Done? && faults == []
    {
      hide Sane, Unique, NoCampaign, NoList, NewList, IdsBelow, TestsBelow;
      var f := TakeFault();
      id := nextId;
      NowSane(t);
      AddCampaignKeepsSane(remote, t, id, v, nextTest);
      if f.Effective() {
        Become(remote.(campaigns := remote.campaigns[id := Draft(t, v)]), id + 1, t);
      }
      sig := SignalOf(f);
    }

    method DeleteCampaign(id: CampaignId, ghost t: TestId) returns (sig: Signal)
      requires Valid() && AlwaysUnique(t)
      modifies this
      ensures Valid() && AlwaysUnique(t) && nextTest == old(nextTest)
      ensures remote == old(remote) || remote == old(remote).(campaigns := old(remote).campaigns - {id})
    {
      var f := TakeFault();
      if f.Effective() {
        NowSane(t);
        RemovalKeepsSane(remote, t, id, nextId, nextTest);
        Become(remote.(campaigns := remote.campaigns - {id}), nextId, t);
      }
      sig := SignalOf(f);
    }

    /** `PUT /campaigns/{id}`: the campaign goes to one list at the given time; its status stays. */
    method UpdateCampaign(id: CampaignId, list: ListId, sendAt: Time, ghost t: TestId) returns (sig: Signal)
      requires Valid() && AlwaysUnique(t) && id in remote.campaigns
      modifies this
      ensures Valid() && AlwaysUnique(t) && nextTest == old(nextTest)
      ensures var plan := Replanned(old(remote).campaigns[id].plan, list, sendAt);
              && (remote == old(remote) || remote == WithPlan(old(remote), id, plan))
              && (sig.Done? ==> remote == WithPlan(old(remote), id, plan))
      ensures sig.Failed? ==> sig.cause == RemoteError
      ensures old(faults) == [] ==> sig.Done? && faults == []
    {
      var f := TakeFault();
      if f.Effective() {
        var plan := Replanned(remote.campaigns[id].plan, list, sendAt);
        NowSane(t);
        PlansKeepSane(remote, t, id, plan, nextId, nextTest);
        Become(WithPlan(remote, id, plan), nextId, t);
      }
      sig := SignalOf(f);
    }

    /** `PUT /campaigns/{id}/status` with status scheduled. */
    method ScheduleCampaign(id: CampaignId, ghost t: TestId) returns (sig: Signal)
      requires Valid() && AlwaysUnique(t) && id in remote.campaigns && remote.campaigns[id].plan.Planned?
      modifies this
      ensures Valid() && AlwaysUnique(t) && nextTest == old(nextTest)
      ensures var plan := old(remote).campaigns[id].plan.(scheduled := true);
              && (remote == old(remote) || remote == WithPlan(old(remote), id, plan))
              && (sig.Done? ==> remote == WithPlan(old(remote), id, plan))
      ensures sig.Failed? ==> sig.cause == RemoteError
      ensures old(faults) == [] ==> sig.Done? && faults == []
    {
      var f := TakeFault();
      if f.Effective() {
        var plan := remote.campaigns[id].plan.(scheduled := true);
        NowSane(t);
        PlansKeepSane(remote, t, id, plan, nextId, nextTest);
        Become(WithPlan(remote, id, plan), nextId, t);
      }
      sig := SignalOf(f);
    }

    method FindCampaigns(t: TestId) returns (sig: Signal, found: set<CampaignId>)
      modifies this`faults
      ensures sig.Done? ==> found == CampaignsOf(remote, t)
      ensures sig.Failed? ==> sig.cause == RemoteError
      ensures old(faults) == [] ==> sig.Done? && faults == []
    {
      var f := TakeFault();
      found := CampaignsOf(remote, t);
      sig := SignalOf(f);
    }

    method CreateList(t: TestId, role: Option<VariantId>) returns (sig: Signal, id: ListId)
      requires Valid() && t < nextTest
      requires AlwaysUnique(t) && NoList(remote, t, role)
      modifies this
      ensures Valid() && AlwaysUnique(t) && nextTest == old(nextTest)
      ensures id !in old(remote).lists
      ensures remote == old(remote) || remote == old(remote).(lists := old(remote).lists[id := NewList(t, role)])
      ensures sig.Done? ==> id in remote.lists
      ensures sig.Failed? ==> sig.cause == RemoteError
      ensures old(faults) == [] ==> sig.Done? && faults == []
    {
      hide Sane, Unique, NoCampaign, NoList, NewList, IdsBelow, TestsBelow;
      var f := TakeFault();
      id := nextId;
      NowSane(t);
      AddListKeepsSane(remote, t, id, role, nextTest);
      if f.Effective() {
        Become(remote.(lists := remote.lists[id := NewList(t, role)]), id + 1, t);
      }
      sig := SignalOf(f);
    }

    method DeleteList(id: ListId, ghost t: TestId) returns (sig: Signal)
      requires Valid() && AlwaysUnique(t)
      modifies this
      ensures Valid() && AlwaysUnique(t) && nextTest == old(nextTest)
      ensures remote == old(remote) || remote == old(remote).(lists := old(remote).lists - {id})
    {
      var f := TakeFault();
      if f.Effective() {
        NowSane(t);
        RemovalKeepsSane(remote, t, id, nextId, nextTest);
        Become(remote.(lists := remote.lists - {id}), nextId, t);
      }
      sig := SignalOf(f);
    }

    method FindLists(t: TestId) returns (sig: Signal, found: set<ListId>)
      modifies this`faults
      ensures sig.Done? ==> found == ListsOf(remote, t)
      ensures sig.Failed? ==> sig.cause == RemoteError
      ensures old(faults) == [] ==> sig.Done? && faults == []
    {
      var f := TakeFault();
      found := ListsOf(remote, t);
      sig := SignalOf(f);
    }

    /** `PUT /subscribers/lists`: add or remove one chunk of subscribers. */
    method ManageLists(id: ListId, add: bool, ids: set<SubscriberId>, ghost t: TestId) returns (sig: Signal)
      requires Valid() && AlwaysUnique(t) && id in remote.lists
      modifies this
      ensures Valid() && AlwaysUnique(t) && nextTest == old(nextTest)
      ensures || remote == old(remote)
              || remote == WithMembers(old(remote), id, Managed(old(remote).lists[id].members, add, ids))
      ensures sig.Done? ==> remote == WithMembers(old(remote), id, Managed(old(remote).lists[id].members, add, ids))
      ensures sig.Failed? ==> sig.cause == RemoteError
      ensures old(faults) == [] ==> sig.Done? && faults == []
    {
      var f := TakeFault();
      if f.Effective() {
        NowSane(t);
        MembersKeepSane(remote, t, id, Managed(remote.lists[id].members, add, ids), nextId, nextTest);
        Become(WithMembers(remote, id, Managed(remote.lists[id].members, add, ids)), nextId, t);
      }
      sig := SignalOf(f);
    }

    /** The rows of a list, in whatever order the server returns them. */
    method Members(id: ListId) returns (sig: Signal, rows: seq<SubscriberId>)
      requires id in remote.lists
      modifies this`faults
      ensures sig.Done? ==> (set x | x in rows) == remote.lists[id].members
      ensures sig.Failed? ==> sig.cause == RemoteError
      ensures old(faults) == [] ==> sig.Done? && faults == []
    {
      var f := TakeFault();
      var rest := remote.lists[id].members;
      rows := [];
      while rest != {}
        invariant rest + (set x | x in rows) == remote.lists[id].members
        decreases rest
      {
        var x :| x in rest;
        rest, rows := rest - {x}, rows + [x];
      }
      sig := SignalOf(f);
    }
  }

  function Managed(members: set<SubscriberId>, add: bool, ids: set<SubscriberId>): set<SubscriberId> {
    if add then members + ids else members - ids
  }

  /** An update keeps the status. */
  function Replanned(plan: Plan, list: ListId, sendAt: Time): Plan {
    Planned(list, sendAt, plan.Planned? && plan.scheduled)
  }

  function WithPlan(r: Remote, id: CampaignId, plan: Plan): Remote
    requires id in r.campaigns
  {
    r.(campaigns := r.campaigns[id := r.campaigns[id].(plan := plan)])
  }

  function WithMembers(r: Remote, id: ListId, members: set<SubscriberId>): Remote
    requires id in r.lists
  {
    r.(lists := r.lists[id := r.lists[id].(members := members)])
  }
}
