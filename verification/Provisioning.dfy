/**
 The phases of a keyed holdout-mode A/B test creation, each a sequence of remote requests that may
 fail or be cut off anywhere.  A phase returns the record to commit; nothing is committed here.
 */
module Provisioning {
  import opened Prelude
  import opened ListmonkRemote
  import Apportionment
  import Manifest

  type Seed = string

  /** A variant and the remote campaign or list that serves it. */
  datatype Mapping = Mapping(variant: VariantId, resource: nat)

  /** The audience split under a seed: one slice per variant, in variant order, and the holdout rest. */
  datatype Slices = Slices(variants: seq<seq<SubscriberId>>, holdout: seq<SubscriberId>)

  /** A create request, as far as creation reads it; variants are given by their percentages. */
  datatype Config = Config(
    percentages: seq<real>,
    testGroupPercentage: Option<real>,
    confidenceThreshold: Option<real>,
    minimumTestSampleSize: Option<int>,
    durationHours: Option<real>,
    sources: seq<int>,
    autoLaunch: bool,
    requestedLaunch: Option<Time>)

  /** The checks that a new create request has to pass. */
  predicate Provisionable(c: Config) {
    && 2 <= |c.percentages| <= 3
    && 99.99 <= Apportionment.SumR(c.percentages) <= 100.01
    && (c.testGroupPercentage.Some? ==> 0.0 < c.testGroupPercentage.value <= 100.0)
    && (c.confidenceThreshold.Some? ==> 0.0 < c.confidenceThreshold.value < 1.0)
    && (c.minimumTestSampleSize.Some? ==> c.minimumTestSampleSize.value > 0)
    && (c.durationHours.Some? ==> c.durationHours.value > 0.0)
  }

  function TestPercentage(c: Config): real {
    if c.testGroupPercentage.Some? then c.testGroupPercentage.value else 10.0
  }

  const VARIANT_LABELS := "ABC"

  /** The id of a variant: its label and the test's name. */
  function VariantName(index: nat, test: string): (v: VariantId)
    requires index < 3
    ensures |v.name| > 8 && v.name[8] == VARIANT_LABELS[index]
  {
    VariantId("variant_" + [VARIANT_LABELS[index]] + "_" + test)
  }

  /** A variant id tells its position and its test. */
  lemma VariantNamesApart(i: nat, a: string, j: nat, b: string)
    requires i < 3 && j < 3
    ensures VariantName(i, a) == VariantName(j, b) <==> i == j && a == b
  {
    var x, y := VariantName(i, a).name, VariantName(j, b).name;
    assert x[10..] == a && y[10..] == b;
  }

  function VariantNames(count: nat, test: string): (r: seq<VariantId>)
    requires count <= 3
    ensures |r| == count && Distinct(r) && forall i :: 0 <= i < count ==> r[i] == VariantName(i, test)
  {
    seq(count, i requires 0 <= i < count => VariantName(i, test))
  }

  /** The persisted test record, as far as creation reads and writes it. */
  datatype Record = Record(
    test: TestId,
    config: Config,
    variants: seq<VariantId>,
    campaignMappings: seq<Mapping>,
    seed: Option<Seed>,
    listMappings: seq<Mapping>,
    holdoutList: Option<ListId>,
    slices: Option<Slices>,
    manifest: Option<Manifest.AssignmentManifest>,
    launchAt: Option<Time>,
    pending: bool,
    provisioned: bool)

  function Ids(s: seq<SubscriberId>): set<SubscriberId> {
    set x | x in s
  }

  function VariantsOf(ms: seq<Mapping>): set<VariantId> {
    set m | m in ms :: m.variant
  }

  function VariantSeq(ms: seq<Mapping>): (r: seq<VariantId>)
    ensures |r| == |ms| && forall i :: 0 <= i < |r| ==> r[i] == ms[i].variant
  {
    seq(|ms|, i requires 0 <= i < |ms| => ms[i].variant)
  }

  /** The mappings pair the variants one to one with resources. */
  predicate OneToOne(ms: seq<Mapping>, variants: seq<VariantId>) {
    && VariantsOf(ms) == (set v | v in variants)
    && forall i, j :: 0 <= i < j < |ms| ==> ms[i].variant != ms[j].variant && ms[i].resource != ms[j].resource
  }

  /** The mapping is complete and every mapped campaign is there, tagged for its variant. */
  predicate CampaignsMapped(rec: Record, r: Remote) {
    && OneToOne(rec.campaignMappings, rec.variants)
    && forall m :: m in rec.campaignMappings ==>
         m.resource in r.campaigns && ServesVariant(r.campaigns[m.resource], rec.test, m.variant)
  }

  /** List `id` serves the role and holds exactly the expected members. */
  predicate Serves(r: Remote, id: ListId, t: TestId, role: Option<VariantId>, members: seq<SubscriberId>) {
    id in r.lists && HasRole(r.lists[id], t, role) && r.lists[id].members == Ids(members)
  }

  /** Every variant's list holds exactly its slice, the holdout list exactly the rest. */
  predicate ListsMapped(rec: Record, r: Remote) {
    && rec.seed.Some? && rec.slices.Some? && rec.holdoutList.Some?
    && |rec.listMappings| == |rec.variants| == |rec.slices.value.variants|
    && (forall i :: 0 <= i < |rec.variants| ==>
          && rec.listMappings[i].variant == rec.variants[i]
          && Serves(r, rec.listMappings[i].resource, rec.test, Some(rec.variants[i]), rec.slices.value.variants[i]))
    && Serves(r, rec.holdoutList.value, rec.test, None, rec.slices.value.holdout)
  }

  /** Campaigns are planned only for an auto-launch, and only for the committed window. */
  predicate PlansFit(rec: Record, r: Remote) {
    forall c :: c in r.campaigns && r.campaigns[c].test == rec.test && r.campaigns[c].plan.Planned? ==>
      rec.config.autoLaunch && rec.launchAt == Some(r.campaigns[c].plan.sendAt)
  }

  /** Every mapped campaign is scheduled, on the list of its own variant, for the committed window. */
  predicate Launched(rec: Record, r: Remote) {
    && rec.launchAt.Some?
    && forall m, l :: m in rec.campaignMappings && l in rec.listMappings && m.variant == l.variant ==>
         && m.resource in r.campaigns
         && r.campaigns[m.resource].plan == Planned(l.resource, rec.launchAt.value, true)
  }

  /** What a committed record promises about the remote. */
  predicate RecordOk(rec: Record, r: Remote) {
    && |rec.variants| == |rec.config.percentages| && Distinct(rec.variants) && Provisionable(rec.config)
    && (rec.campaignMappings != [] ==> CampaignsMapped(rec, r))
    && (rec.listMappings != [] ==> ListsMapped(rec, r) && rec.campaignMappings != [])
    && (rec.provisioned ==> rec.campaignMappings != [] && rec.listMappings != [])
    && (rec.pending <==> !rec.provisioned)
    && (rec.launchAt.Some? && rec.config.requestedLaunch.Some? ==> rec.launchAt == rec.config.requestedLaunch)
    && PlansFit(rec, r)
    && (rec.provisioned && rec.config.autoLaunch ==> Launched(rec, r))
  }

  /** What one committed record fixes for every later one. */
  predicate Evolves(a: Record, b: Record) {
    && b.test == a.test && b.variants == a.variants
    && b.config == a.config
    && (a.seed.Some? ==> b.seed == a.seed)
    && (a.launchAt.Some? ==> b.launchAt == a.launchAt)
    && (a.campaignMappings != [] ==> b.campaignMappings == a.campaignMappings)
    && (a.listMappings != [] ==>
          b.listMappings == a.listMappings && b.holdoutList == a.holdoutList && b.slices == a.slices
          && b.manifest == a.manifest)
    && (a.provisioned ==> b == a)
  }

  lemma EvolvesTransitive(a: Record, b: Record, c: Record)
    requires Evolves(a, b) && Evolves(b, c)
    ensures Evolves(a, c)
  {
  }

  // ---------------------------------------------------------------------------------
  // Campaigns
  // ---------------------------------------------------------------------------------

  /** Campaigns among `tagged` that carry the tag of variant `v`. */
  function Matching(r: Remote, tagged: set<CampaignId>, v: VariantId): set<CampaignId> {
    set c | c in tagged && c in r.campaigns && v in r.campaigns[c].variantTags
  }

  /** The variants that an earlier attempt left a campaign for. */
  function Adoptable(r: Remote, rec: Record): set<VariantId> {
    set v | v in rec.variants && Matching(r, CampaignsOf(r, rec.test), v) != {}
  }

  /** With unique tags adoption is never ambiguous, and no campaign matches two variants. */
  lemma AdoptionUnambiguous(r: Remote, t: TestId, v: VariantId)
    requires CampaignsUnique(r, t)
    ensures |Matching(r, CampaignsOf(r, t), v)| <= 1
    ensures forall c :: c in Matching(r, CampaignsOf(r, t), v) ==> r.campaigns[c].variantTags == [v]
  {
    var matching := Matching(r, CampaignsOf(r, t), v);
    forall c | c in matching ensures r.campaigns[c].variantTags == [v] {
      assert |r.campaigns[c].variantTags| == 1;
    }
    if c :| c in matching {
      assert matching == {c};
    }
  }

  method DeleteCampaignsBestEffort(lm: Listmonk, ids: seq<Mapping>, ghost t: TestId) returns (sig: Signal)
    requires lm.Valid() && lm.AlwaysUnique(t)
    modifies lm
    ensures lm.Valid() && lm.AlwaysUnique(t) && lm.nextTest == old(lm.nextTest)
    ensures lm.remote.lists == old(lm.remote).lists && NoNewPlans(old(lm.remote), lm.remote)
    ensures !sig.Failed?
  {
    for i := 0 to |ids|
      invariant lm.Valid() && lm.AlwaysUnique(t) && lm.nextTest == old(lm.nextTest)
      invariant lm.remote.lists == old(lm.remote).lists && NoNewPlans(old(lm.remote), lm.remote)
    {
      var deleted := lm.DeleteCampaign(ids[i].resource, t);
      if deleted.Crashed? {
        return Crashed;
      }
    }
    return Done;
  }

  /** Creates one campaign per listed variant; on failure it deletes, best effort, the ones it knows of. */
  method CreateTestCampaigns(lm: Listmonk, t: TestId, todo: seq<VariantId>)
    returns (sig: Signal, created: seq<Mapping>)
    requires lm.Valid() && lm.AlwaysUnique(t) && t < lm.nextTest
    requires Distinct(todo) && forall v :: v in todo ==> NoCampaign(lm.remote, t, v)
    modifies lm
    ensures lm.Valid() && lm.AlwaysUnique(t) && lm.nextTest == old(lm.nextTest)
    ensures lm.remote.lists == old(lm.remote).lists && NoNewPlans(old(lm.remote), lm.remote)
    ensures sig.Failed? ==> sig.cause == RemoteError
    ensures sig.Done? ==>
              && |created| == |todo|
              && (forall c :: c in old(lm.remote).campaigns ==>
                    c in lm.remote.campaigns && lm.remote.campaigns[c] == old(lm.remote).campaigns[c])
              && (forall k :: 0 <= k < |todo| ==>
                    && created[k].variant == todo[k] && created[k].resource !in old(lm.remote).campaigns
                    && created[k].resource in lm.remote.campaigns
                    && ServesVariant(lm.remote.campaigns[created[k].resource], t, todo[k]))
    ensures old(lm.faults) == [] ==> sig.Done? && lm.faults == []
  {
    created := [];
    for i := 0 to |todo|
      invariant lm.Valid() && lm.AlwaysUnique(t) && lm.nextTest == old(lm.nextTest)
      invariant lm.remote.lists == old(lm.remote).lists && NoNewPlans(old(lm.remote), lm.remote)
      invariant old(lm.faults) == [] ==> lm.faults == []
      invariant forall k :: i <= k < |todo| ==> NoCampaign(lm.remote, t, todo[k])
      invariant |created| == i
      invariant forall c :: c in old(lm.remote).campaigns ==>
                  c in lm.remote.campaigns && lm.remote.campaigns[c] == old(lm.remote).campaigns[c]
      invariant forall k :: 0 <= k < i ==>
                  && created[k].variant == todo[k] && created[k].resource !in old(lm.remote).campaigns
                  && created[k].resource in lm.remote.campaigns
                  && ServesVariant(lm.remote.campaigns[created[k].resource], t, todo[k])
    {
      var made, id := lm.CreateCampaign(t, todo[i]);
      if made.Crashed? {
        return Crashed, created;
      }
      if made.Failed? {
        var rolledBack := DeleteCampaignsBestEffort(lm, created, t);
        return (if rolledBack.Crashed? then Crashed else made), created;
      }
      created := created + [Mapping(todo[i], id)];
    }
    sig := Done;
  }

  /** Some variant has two tagged campaigns, or one campaign is tagged for two variants. */
  predicate CampaignTagsConfused(r: Remote, rec: Record) {
    var tagged := CampaignsOf(r, rec.test);
    || (exists v :: v in rec.variants && |Matching(r, tagged, v)| > 1)
    || (exists a, b, c :: a in rec.variants && b in rec.variants && a != b
                          && c in Matching(r, tagged, a) && c in Matching(r, tagged, b))
  }

  lemma NothingAdopted(variants: seq<VariantId>, adopted: set<VariantId>)
    ensures VariantSeq([]) == Within(variants[..0], adopted)
  {
  }

  lemma VariantSeqAppend(ms: seq<Mapping>, m: Mapping)
    ensures VariantSeq(ms + [m]) == VariantSeq(ms) + [m.variant]
  {
  }

  /** One more variant adds itself to the adopted ones in order, or nothing. */
  lemma AdoptionOrder(r: Remote, rec: Record, i: nat)
    requires i < |rec.variants|
    ensures Within(rec.variants[..i + 1], Adoptable(r, rec)) == Within(rec.variants[..i], Adoptable(r, rec))
              + if Matching(r, CampaignsOf(r, rec.test), rec.variants[i]) != {} then [rec.variants[i]] else []
  {
    hide Matching, CampaignsOf;
    assert rec.variants[..i + 1][..i] == rec.variants[..i];
    assert rec.variants[i] in rec.variants;
  }

  /** What the adoption loop has mapped after the first `i` variants. */
  ghost predicate Adopting(r: Remote, tagged: set<CampaignId>, rec: Record, mappings: seq<Mapping>, i: nat) {
    && i <= |rec.variants|
    && VariantSeq(mappings) == Within(rec.variants[..i], Adoptable(r, rec))
    && (forall m :: m in mappings ==> m.variant in rec.variants[..i] && m.resource in Matching(r, tagged, m.variant))
    && (forall k :: 0 <= k < i && rec.variants[k] !in VariantsOf(mappings) ==>
          Matching(r, tagged, rec.variants[k]) == {})
    && (forall a, b :: 0 <= a < b < |mappings| ==>
          mappings[a].variant != mappings[b].variant && mappings[a].resource != mappings[b].resource)
  }

  lemma AdoptNone(r: Remote, tagged: set<CampaignId>, rec: Record, mappings: seq<Mapping>, i: nat)
    requires tagged == CampaignsOf(r, rec.test) && Adopting(r, tagged, rec, mappings, i) && i < |rec.variants|
    requires Matching(r, tagged, rec.variants[i]) == {}
    ensures Adopting(r, tagged, rec, mappings, i + 1)
  {
    hide Matching, CampaignsOf, Within, VariantSeq, Adoptable;
    AdoptionOrder(r, rec, i);
  }

  lemma AdoptOne(r: Remote, tagged: set<CampaignId>, rec: Record, mappings: seq<Mapping>, i: nat, c: CampaignId)
    requires tagged == CampaignsOf(r, rec.test) && Adopting(r, tagged, rec, mappings, i) && i < |rec.variants|
    requires Distinct(rec.variants) && c in Matching(r, tagged, rec.variants[i])
    requires forall m :: m in mappings ==> m.resource != c
    ensures Adopting(r, tagged, rec, mappings + [Mapping(rec.variants[i], c)], i + 1)
  {
    hide Matching, CampaignsOf, Within, VariantSeq, Adoptable;
    var m := Mapping(rec.variants[i], c);
    AdoptionOrder(r, rec, i);
    VariantSeqAppend(mappings, m);
    assert rec.variants[i] !in rec.variants[..i];
    assert VariantsOf(mappings + [m]) == VariantsOf(mappings) + {rec.variants[i]};
    assert forall k :: 0 <= k < |mappings| ==> mappings[k] in mappings;
  }

  /** A campaign that was already adopted for another variant carries two variant tags. */
  lemma AdoptedTwice(r: Remote, tagged: set<CampaignId>, rec: Record, mappings: seq<Mapping>, i: nat, m: Mapping)
    requires tagged == CampaignsOf(r, rec.test) && Adopting(r, tagged, rec, mappings, i) && i < |rec.variants|
    requires Distinct(rec.variants) && m in mappings && m.resource in Matching(r, tagged, rec.variants[i])
    ensures CampaignTagsConfused(r, rec)
  {
    hide Matching, CampaignsOf, Within, VariantSeq, Adoptable;
    assert m.variant in rec.variants[..i] && m.variant != rec.variants[i];
  }

  lemma AllAdopted(r: Remote, tagged: set<CampaignId>, rec: Record, mappings: seq<Mapping>)
    requires Adopting(r, tagged, rec, mappings, |rec.variants|)
    ensures VariantSeq(mappings) == Within(rec.variants, Adoptable(r, rec))
    ensures forall m :: m in mappings ==> m.variant in rec.variants && m.resource in Matching(r, tagged, m.variant)
    ensures forall v :: v in rec.variants && v !in VariantsOf(mappings) ==> Matching(r, tagged, v) == {}
    ensures forall i, j :: 0 <= i < j < |mappings| ==>
              mappings[i].variant != mappings[j].variant && mappings[i].resource != mappings[j].resource
  {
    hide Matching, Within, VariantSeq, Adoptable;
    assert rec.variants[..|rec.variants|] == rec.variants;
  }

  /** The adoption loop: maps each variant that already has a tagged campaign. */
  method AdoptCampaigns(r: Remote, tagged: set<CampaignId>, rec: Record) returns (sig: Signal, mappings: seq<Mapping>)
    requires tagged == CampaignsOf(r, rec.test) && Distinct(rec.variants)
    ensures !sig.Crashed?
    ensures sig.Failed? ==> CampaignTagsConfused(r, rec)
    ensures sig.Done? ==>
              && (forall m :: m in mappings ==>
                    m.variant in rec.variants && m.resource in Matching(r, tagged, m.variant))
              && (forall v :: v in rec.variants && v !in VariantsOf(mappings) ==> Matching(r, tagged, v) == {})
              && (forall i, j :: 0 <= i < j < |mappings| ==>
                    mappings[i].variant != mappings[j].variant && mappings[i].resource != mappings[j].resource)
    ensures sig.Done? ==> VariantSeq(mappings) == Within(rec.variants, Adoptable(r, rec))
  {
    hide Matching, CampaignsOf, Within, VariantSeq, Adoptable, Adopting, Distinct, VariantsOf;
    mappings := [];
    assert Adopting(r, tagged, rec, [], 0) by { NoneYet(r, tagged, rec); }
    for i := 0 to |rec.variants|
      invariant Adopting(r, tagged, rec, mappings, i)
    {
      var v := rec.variants[i];
      var matches := Matching(r, tagged, v);
      if |matches| > 1 {
        return Failed(AmbiguousTags), [];
      }
      if matches == {} {
        AdoptNone(r, tagged, rec, mappings, i);
      } else {
        var c :| c in matches;
        if exists m :: m in mappings && m.resource == c {
          ghost var m :| m in mappings && m.resource == c;
          AdoptedTwice(r, tagged, rec, mappings, i, m);
          return Failed(DoublyTagged), [];
        }
        AdoptOne(r, tagged, rec, mappings, i, c);
        mappings := mappings + [Mapping(v, c)];
      }
    }
    AllAdopted(r, tagged, rec, mappings);
    sig := Done;
  }

  lemma NoneYet(r: Remote, tagged: set<CampaignId>, rec: Record)
    ensures Adopting(r, tagged, rec, [], 0)
  {
    NothingAdopted(rec.variants, Adoptable(r, rec));
  }

  /** Unique tags leave the adoption loop nothing to throw about. */
  lemma CampaignTagsClear(r: Remote, rec: Record)
    requires CampaignsUnique(r, rec.test)
    ensures !CampaignTagsConfused(r, rec)
  {
    forall v: VariantId
      ensures |Matching(r, CampaignsOf(r, rec.test), v)| <= 1
      ensures forall c :: c in Matching(r, CampaignsOf(r, rec.test), v) ==> r.campaigns[c].variantTags == [v]
    {
      AdoptionUnambiguous(r, rec.test, v);
    }
    forall c, a, b | c in Matching(r, CampaignsOf(r, rec.test), a) && c in Matching(r, CampaignsOf(r, rec.test), b)
      ensures a == b
    {
      assert [a][0] == [b][0];
    }
  }

  lemma MergedMappings(rec: Record, r0: Remote, r: Remote, adopted: seq<Mapping>, created: seq<Mapping>,
                       todo: seq<VariantId>)
    requires CampaignsUnique(r0, rec.test) && Distinct(rec.variants)
    requires todo == Without(rec.variants, VariantsOf(adopted))
    requires forall m :: m in adopted ==>
               m.variant in rec.variants && m.resource in Matching(r0, CampaignsOf(r0, rec.test), m.variant)
    requires forall i, j :: 0 <= i < j < |adopted| ==>
               adopted[i].variant != adopted[j].variant && adopted[i].resource != adopted[j].resource
    requires forall c :: c in r0.campaigns ==> c in r.campaigns && r.campaigns[c] == r0.campaigns[c]
    requires |created| == |todo|
    requires forall k :: 0 <= k < |todo| ==>
               && created[k].variant == todo[k] && created[k].resource !in r0.campaigns
               && created[k].resource in r.campaigns
               && ServesVariant(r.campaigns[created[k].resource], rec.test, todo[k])
    ensures CampaignsMapped(rec.(campaignMappings := adopted + created), r)
  {
    var ms := adopted + created;
    forall m | m in ms
      ensures m.variant in rec.variants && m.resource in r.campaigns
              && ServesVariant(r.campaigns[m.resource], rec.test, m.variant)
    {
      if m in adopted {
        AdoptionUnambiguous(r0, rec.test, m.variant);
      }
    }
    forall v | v in rec.variants ensures v in VariantsOf(ms) {
      if v in VariantsOf(adopted) {
        var m :| m in adopted && m.variant == v;
        assert m in ms;
      } else {
        var k :| 0 <= k < |todo| && todo[k] == v;
        assert created[k] in ms;
      }
    }
    assert forall m :: m in adopted ==> m.variant in VariantsOf(adopted);
    forall i, j | 0 <= i < j < |ms| ensures ms[i].variant != ms[j].variant && ms[i].resource != ms[j].resource {
      assert ms[i] in ms && ms[j] in ms;
      if i >= |adopted| {
        assert todo[i - |adopted|] != todo[j - |adopted|];
        assert [ms[i].variant][0] != [ms[j].variant][0];
      } else if j >= |adopted| {
        assert ms[i] in adopted;
        assert ms[j].variant == todo[j - |adopted|] && todo[j - |adopted|] in todo;
      }
    }
  }

  lemma {:induction false} WithinAll<T>(s: seq<T>, keep: set<T>, x: T)
    ensures x in Within(s, keep) <==> x in s && x in keep
  {
    if s != [] {
      assert s == s[..|s| - 1] + [s[|s| - 1]];
      WithinAll(s[..|s| - 1], keep, x);
    }
  }

  lemma AdoptableListed(r: Remote, rec: Record)
    ensures forall v :: v in Adoptable(r, rec) ==> v in rec.variants
  {
  }

  lemma MergedOrder(adopted: seq<Mapping>, created: seq<Mapping>, todo: seq<VariantId>)
    requires |created| == |todo| && forall k :: 0 <= k < |todo| ==> created[k].variant == todo[k]
    ensures VariantSeq(adopted + created) == VariantSeq(adopted) + todo
  {
  }

  lemma SameVariants(ms: seq<Mapping>, variants: seq<VariantId>, adopted: set<VariantId>)
    requires VariantSeq(ms) == Within(variants, adopted) && forall v :: v in adopted ==> v in variants
    ensures VariantsOf(ms) == adopted
  {
    forall v ensures v in VariantsOf(ms) <==> v in adopted {
      WithinAll(variants, adopted, v);
      assert v in VariantSeq(ms) <==> v in Within(variants, adopted);
      if v in adopted {
        var i :| 0 <= i < |ms| && VariantSeq(ms)[i] == v;
        assert ms[i].variant == v;
      }
      if m :| m in ms && m.variant == v {
        var i :| 0 <= i < |ms| && ms[i] == m;
        assert VariantSeq(ms)[i] == v;
      }
    }
  }

  /** The mappings follow the order of the variants exactly when the adopted variants come first in it. */
  lemma OrderKept(r: Remote, rec: Record, ms: seq<Mapping>)
    requires VariantSeq(ms) == Within(rec.variants, Adoptable(r, rec)) + Without(rec.variants, Adoptable(r, rec))
    ensures VariantSeq(ms) == rec.variants <==> exists n: nat :: Leads(rec.variants, Adoptable(r, rec), n)
  {
    FrontUnmoved(rec.variants, Adoptable(r, rec));
  }

  /**
   An order that breaks: the second of two variants has a campaign and the first has none, as when the answer to the
   second creation was lost and the rollback of the first worked.
   */
  lemma OrderBreaks(r: Remote, rec: Record, c: CampaignId)
    requires |rec.variants| == 2 && Distinct(rec.variants) && NoCampaign(r, rec.test, rec.variants[0])
    requires c in r.campaigns && ServesVariant(r.campaigns[c], rec.test, rec.variants[1])
    ensures !exists n: nat :: Leads(rec.variants, Adoptable(r, rec), n)
    ensures Within(rec.variants, Adoptable(r, rec)) + Without(rec.variants, Adoptable(r, rec))
         == [rec.variants[1], rec.variants[0]] != rec.variants
  {
    var adopted := Adoptable(r, rec);
    assert c in Matching(r, CampaignsOf(r, rec.test), rec.variants[1]);
    assert Matching(r, CampaignsOf(r, rec.test), rec.variants[0]) == {};
    assert rec.variants[1] in adopted && rec.variants[0] !in adopted;
    TwoReordered(rec.variants, adopted);
  }

  lemma TwoReordered(variants: seq<VariantId>, adopted: set<VariantId>)
    requires |variants| == 2 && variants[0] !in adopted && variants[1] in adopted
    ensures Within(variants, adopted) + Without(variants, adopted) == [variants[1], variants[0]]
  {
    assert variants[..1] == [variants[0]] && [variants[0]][..0] == [];
    assert Within([variants[0]], adopted) == [];
    assert variants[1..] == [variants[1]] && [variants[1]][1..] == [];
    assert Without([variants[1]], adopted) == [];
  }

  /**
   Campaign phase: adopt the tagged campaigns of an earlier attempt, create only the missing ones, and
   record the complete mapping.  A record that already has its mapping is left alone.
   */
  method ProvisionCampaigns(lm: Listmonk, rec: Record) returns (sig: Signal, rec': Record)
    requires lm.Valid() && lm.AlwaysUnique(rec.test) && rec.test < lm.nextTest && RecordOk(rec, lm.remote)
    modifies lm
    ensures lm.Valid() && lm.AlwaysUnique(rec.test) && lm.nextTest == old(lm.nextTest)
    ensures RecordOk(rec, lm.remote)
    ensures sig.Failed? ==> sig.cause == RemoteError || CampaignTagsConfused(lm.remote, rec)
    ensures sig.Done? ==> RecordOk(rec', lm.remote) && Evolves(rec, rec') && rec'.campaignMappings != []
    ensures sig.Done? ==> rec' == rec.(campaignMappings := rec'.campaignMappings)
    ensures sig.Done? && rec.campaignMappings == [] && !rec.provisioned ==>
              var adopted := Adoptable(old(lm.remote), rec);
              VariantSeq(rec'.campaignMappings) == Within(rec.variants, adopted) + Without(rec.variants, adopted)
    ensures old(lm.faults) == [] ==> (sig.Done? || CampaignTagsConfused(lm.remote, rec)) && lm.faults == []
  {
    hide Within, Without, VariantSeq, Adoptable;
    rec' := rec;
    if rec.provisioned || rec.campaignMappings != [] {
      return Done, rec;
    }
    var found, tagged := lm.FindCampaigns(rec.test);
    if !found.Done? {
      return found, rec;
    }
    ghost var r0 := lm.remote;
    assert CampaignsUnique(r0, rec.test) by { assert Unique(lm.history[|lm.history| - 1], rec.test); }
    var adoption, mappings := AdoptCampaigns(lm.remote, tagged, rec);
    if !adoption.Done? {
      return adoption, rec;
    }
    AdoptableListed(r0, rec);
    SameVariants(mappings, rec.variants, Adoptable(r0, rec));
    var todo := Without(rec.variants, VariantsOf(mappings));
    forall v | v in todo ensures NoCampaign(lm.remote, rec.test, v) {
      assert Matching(lm.remote, tagged, v) == {};
      forall c | c in lm.remote.campaigns && lm.remote.campaigns[c].test == rec.test
        ensures v !in lm.remote.campaigns[c].variantTags
      {
        assert c in tagged && c !in Matching(lm.remote, tagged, v);
      }
    }
    var made, created := CreateTestCampaigns(lm, rec.test, todo);
    if !made.Done? {
      return made, rec;
    }
    MergedMappings(rec, r0, lm.remote, mappings, created, todo);
    MergedOrder(mappings, created, todo);
    rec' := rec.(campaignMappings := mappings + created);
    assert rec.variants[0] in VariantsOf(rec'.campaignMappings);
    sig := Done;
  }
}
