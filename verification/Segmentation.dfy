/**
 The segmentation phase: adopt or create the holdout list and one list per variant, and bring each
 list's membership to exactly its slice through the chunked bulk endpoint.
 */
module Segmentation {
  import opened Prelude
  import opened ListmonkRemote
  import opened Provisioning

  /** Only the members of list `id` differ. */
  predicate MembersOnly(a: Remote, b: Remote, id: ListId) {
    id in a.lists && id in b.lists && b == WithMembers(a, id, b.lists[id].members)
  }

  /** The chunked add or remove loop: after it the listed subscribers are all in, or all out. */
  method ManageBulk(lm: Listmonk, id: ListId, add: bool, ids: seq<SubscriberId>, chunkSize: nat, ghost t: TestId)
    returns (sig: Signal)
    requires lm.Valid() && lm.AlwaysUnique(t) && id in lm.remote.lists && chunkSize > 0
    modifies lm
    ensures lm.Valid() && lm.AlwaysUnique(t) && lm.nextTest == old(lm.nextTest)
    ensures MembersOnly(old(lm.remote), lm.remote, id)
    ensures sig.Done? ==> lm.remote.lists[id].members == Managed(old(lm.remote).lists[id].members, add, Ids(ids))
    ensures sig.Failed? ==> sig.cause == RemoteError
    ensures old(lm.faults) == [] ==> sig.Done? && lm.faults == []
  {
    ghost var before := lm.remote;
    var offset := 0;
    while offset < |ids|
      invariant 0 <= offset <= |ids|
      invariant lm.Valid() && lm.AlwaysUnique(t) && lm.nextTest == old(lm.nextTest)
      invariant MembersOnly(before, lm.remote, id)
      invariant old(lm.faults) == [] ==> lm.faults == []
      invariant lm.remote.lists[id].members == Managed(before.lists[id].members, add, Ids(ids[..offset]))
    {
      var end := if offset + chunkSize < |ids| then offset + chunkSize else |ids|;
      assert Ids(ids[..end]) == Ids(ids[..offset]) + Ids(ids[offset..end]) by {
        assert ids[..end] == ids[..offset] + ids[offset..end];
      }
      sig := lm.ManageLists(id, add, Ids(ids[offset..end]), t);
      if !sig.Done? {
        return;
      }
      offset := end;
    }
    assert ids[..|ids|] == ids;
    sig := Done;
  }

  const CHUNK_SIZE := 500

  /** Brings an adopted list to exactly the expected members: remove the stale ones, then add the missing ones. */
  method ReconcileMembership(lm: Listmonk, id: ListId, expected: seq<SubscriberId>, ghost t: TestId)
    returns (sig: Signal)
    requires lm.Valid() && lm.AlwaysUnique(t) && id in lm.remote.lists
    modifies lm
    ensures lm.Valid() && lm.AlwaysUnique(t) && lm.nextTest == old(lm.nextTest)
    ensures MembersOnly(old(lm.remote), lm.remote, id)
    ensures sig.Done? ==> lm.remote.lists[id].members == Ids(expected)
    ensures sig.Failed? ==> sig.cause == RemoteError
    ensures old(lm.faults) == [] ==> sig.Done? && lm.faults == []
  {
    var current: seq<SubscriberId>;
    sig, current := lm.Members(id);
    if !sig.Done? {
      return;
    }
    sig := ManageBulk(lm, id, false, Without(current, Ids(expected)), CHUNK_SIZE, t);
    if !sig.Done? {
      return;
    }
    ghost var middle := lm.remote;
    sig := ManageBulk(lm, id, true, Without(expected, Ids(current)), CHUNK_SIZE, t);
  }

  /** Campaigns and every list other than `id` are as before; `id` keeps its tags if it was there. */
  ghost predicate OnlyList(a: Remote, b: Remote, id: ListId) {
    && b.campaigns == a.campaigns
    && (forall l :: l != id ==> (l in a.lists <==> l in b.lists))
    && (forall l :: l != id && l in a.lists ==> b.lists[l] == a.lists[l])
    && (id in a.lists ==> id in b.lists && b.lists[id] == a.lists[id].(members := b.lists[id].members))
  }

  /** The list with the given role: adopted and reconciled if there is one, created and filled otherwise. */
  method EnsureList(lm: Listmonk, t: TestId, role: Option<VariantId>, adopted: Option<ListId>,
                    expected: seq<SubscriberId>)
    returns (sig: Signal, id: ListId, created: seq<ListId>)
    requires lm.Valid() && lm.AlwaysUnique(t) && t < lm.nextTest
    requires adopted.Some? ==> adopted.value in lm.remote.lists && HasRole(lm.remote.lists[adopted.value], t, role)
    requires adopted.None? ==> NoList(lm.remote, t, role)
    modifies lm
    ensures lm.Valid() && lm.AlwaysUnique(t) && lm.nextTest == old(lm.nextTest)
    ensures sig.Failed? ==> sig.cause == RemoteError
    ensures OnlyList(old(lm.remote), lm.remote, id) && lm.remote.campaigns == old(lm.remote).campaigns
    ensures if adopted.Some? then id == adopted.value else id !in old(lm.remote).lists
    ensures sig.Done? ==> Serves(lm.remote, id, t, role, expected)
    ensures created == [] || created == [id]
    ensures old(lm.faults) == [] ==> sig.Done? && lm.faults == []
  {
    created := [];
    if adopted.Some? {
      id := adopted.value;
      sig := ReconcileMembership(lm, id, expected, t);
      return;
    }
    sig, id := lm.CreateList(t, role);
    if !sig.Done? {
      return;
    }
    created := [id];
    ghost var made := lm.remote;
    sig := ManageBulk(lm, id, true, expected, CHUNK_SIZE, t);
  }

  // ---------------------------------------------------------------------------------
  // The whole split
  // ---------------------------------------------------------------------------------

  /** A listed resource is tagged for the role (`None` is the holdout role). */
  predicate TaggedFor(l: SubscriberList, role: Option<VariantId>) {
    if role.None? then l.holdoutRole else l.variantRole && role.value in l.variantTags
  }

  function Carrying(r: Remote, found: set<ListId>, v: VariantId): set<ListId> {
    set l | l in found && l in r.lists && v in r.lists[l].variantTags
  }

  function Holdouts(r: Remote, found: set<ListId>): set<ListId> {
    set l | l in found && l in r.lists && r.lists[l].holdoutRole
  }

  /**
   Tags that adoption refuses: two holdout lists, a list with two variants or both roles, two lists of one variant.
   */
  predicate ListTagsConfused(r: Remote, t: TestId) {
    var found := ListsOf(r, t);
    || |Holdouts(r, found)| > 1
    || (exists l :: l in found && |r.lists[l].variantTags| > 1)
    || (exists l :: l in found && r.lists[l].holdoutRole && r.lists[l].variantRole && r.lists[l].variantTags != [])
    || (exists l, k :: l in found && 0 <= k < |r.lists[l].variantTags| && r.lists[l].variantRole
                       && |Carrying(r, found, r.lists[l].variantTags[k])| > 1)
  }

  /** Unique lists leave the adoption checks nothing to throw about. */
  lemma ListTagsClear(r: Remote, t: TestId)
    requires ListsUnique(r, t)
    ensures !ListTagsConfused(r, t)
  {
    var found := ListsOf(r, t);
    assert forall l :: l in found ==> WellTagged(r.lists[l]);
    if h :| h in Holdouts(r, found) {
      assert Holdouts(r, found) == {h};
    }
    forall l, k | l in found && 0 <= k < |r.lists[l].variantTags|
      ensures |Carrying(r, found, r.lists[l].variantTags[k])| <= 1
    {
      forall l' | l' in Carrying(r, found, r.lists[l].variantTags[k]) ensures l' == l {
        assert r.lists[l'].variantTags == r.lists[l].variantTags;
      }
      if Carrying(r, found, r.lists[l].variantTags[k]) != {} {
        assert Carrying(r, found, r.lists[l].variantTags[k]) == {l};
      }
    }
  }

  method PickAdopted(r: Remote, found: set<ListId>, role: Option<VariantId>) returns (adopted: Option<ListId>)
    ensures adopted.Some? ==>
              adopted.value in found && adopted.value in r.lists && TaggedFor(r.lists[adopted.value], role)
    ensures adopted.None? ==> forall l :: l in found && l in r.lists ==> !TaggedFor(r.lists[l], role)
  {
    var matches := set l | l in found && l in r.lists && TaggedFor(r.lists[l], role);
    if matches != {} {
      var l :| l in matches;
      return Some(l);
    }
    assert forall l :: l in found && l in r.lists ==> l !in matches;
    return None;
  }

  method DeleteListsBestEffort(lm: Listmonk, ids: seq<ListId>, ghost t: TestId) returns (sig: Signal)
    requires lm.Valid() && lm.AlwaysUnique(t)
    modifies lm
    ensures lm.Valid() && lm.AlwaysUnique(t) && lm.nextTest == old(lm.nextTest)
    ensures lm.remote.campaigns == old(lm.remote).campaigns
    ensures !sig.Failed?
  {
    for i := |ids| downto 0
      invariant lm.Valid() && lm.AlwaysUnique(t) && lm.nextTest == old(lm.nextTest)
      invariant lm.remote.campaigns == old(lm.remote).campaigns
    {
      var deleted := lm.DeleteList(ids[i], t);
      if deleted.Crashed? {
        return Crashed;
      }
    }
    return Done;
  }

  /** Every list of `t` was found at the start, is the holdout list, or serves one of the first `i` variants. */
  predicate Accounted(r: Remote, t: TestId, found: set<ListId>, variants: seq<VariantId>, i: nat) {
    forall l :: l in r.lists && r.lists[l].test == t ==>
      || l in found || r.lists[l].holdoutRole
      || exists k :: 0 <= k < i <= |variants| && r.lists[l].variantTags == [variants[k]]
  }

  predicate AllServe(r: Remote, t: TestId, variants: seq<VariantId>, slices: seq<seq<SubscriberId>>,
                     lists: seq<Mapping>)
  {
    && |lists| <= |variants| == |slices|
    && forall k :: 0 <= k < |lists| ==>
         lists[k].variant == variants[k] && Serves(r, lists[k].resource, t, Some(variants[k]), slices[k])
  }

  /** What an adoption choice means when the test's lists are unique. */
  lemma AdoptedFitsRole(r: Remote, t: TestId, role: Option<VariantId>, found: set<ListId>, variants: seq<VariantId>,
                        i: nat, adopted: Option<ListId>)
    requires ListsUnique(r, t) && found <= ListsOf(r, t) && Accounted(r, t, found, variants, i)
    requires role.None? ==> forall l :: l in r.lists && r.lists[l].test == t && r.lists[l].holdoutRole ==> l in found
    requires role.Some? ==> i < |variants| && Distinct(variants) && role.value == variants[i]
    requires adopted.Some? ==> adopted.value in found && TaggedFor(r.lists[adopted.value], role)
    requires adopted.None? ==> forall l :: l in found && l in r.lists ==> !TaggedFor(r.lists[l], role)
    ensures adopted.Some? ==> adopted.value in r.lists && HasRole(r.lists[adopted.value], t, role)
    ensures adopted.None? ==> NoList(r, t, role)
  {
    if adopted.Some? {
      assert WellTagged(r.lists[adopted.value]);
    } else {
      forall l | l in r.lists && r.lists[l].test == t
        ensures if role.None? then !r.lists[l].holdoutRole else role.value !in r.lists[l].variantTags
      {
        assert WellTagged(r.lists[l]);
      }
    }
  }

  /** Filling the list of variant `i` disturbs none of the lists served before it. */
  lemma OthersStillServe(a: Remote, b: Remote, t: TestId, id: ListId, holdout: ListId,
                         holdoutMembers: seq<SubscriberId>,
                         variants: seq<VariantId>, slices: seq<seq<SubscriberId>>, lists: seq<Mapping>,
                         found: set<ListId>, i: nat)
    requires OnlyList(a, b, id) && Distinct(variants) && i == |lists| < |variants|
    requires AllServe(a, t, variants, slices, lists) && Serves(a, holdout, t, None, holdoutMembers)
    requires Accounted(a, t, found, variants, i) && found <= ListsOf(a, t)
    requires id in a.lists ==> HasRole(a.lists[id], t, Some(variants[i]))
    requires Serves(b, id, t, Some(variants[i]), slices[i])
    ensures AllServe(b, t, variants, slices, lists + [Mapping(variants[i], id)])
    ensures Serves(b, holdout, t, None, holdoutMembers)
    ensures Accounted(b, t, found, variants, i + 1) && found <= ListsOf(b, t)
  {
    assert id != holdout;
    forall k | 0 <= k < i ensures lists[k].resource != id {
      assert variants[k] != variants[i];
      assert [variants[k]][0] != [variants[i]][0];
    }
    forall l | l in b.lists && b.lists[l].test == t
      ensures l in found || b.lists[l].holdoutRole
              || exists k :: 0 <= k < i + 1 <= |variants| && b.lists[l].variantTags == [variants[k]]
    {
      if l != id && l !in found && !b.lists[l].holdoutRole {
        var k :| 0 <= k < i && a.lists[l].variantTags == [variants[k]];
        assert 0 <= k < i + 1;
      }
    }
  }

  lemma NowUnique(lm: Listmonk, t: TestId)
    requires lm.Valid() && lm.AlwaysUnique(t)
    ensures ListsUnique(lm.remote, t)
  {
    assert Unique(lm.history[|lm.history| - 1], t);
  }

  lemma NothingYet(r: Remote, t: TestId, variants: seq<VariantId>)
    ensures Accounted(r, t, ListsOf(r, t), variants, 0)
    ensures forall l :: l in r.lists && r.lists[l].test == t ==> l in ListsOf(r, t)
  {
  }

  lemma HoldoutEnsured(a: Remote, b: Remote, t: TestId, id: ListId, variants: seq<VariantId>,
                       slices: seq<seq<SubscriberId>>, members: seq<SubscriberId>)
    requires OnlyList(a, b, id) && |variants| == |slices| && Serves(b, id, t, None, members)
    requires id in a.lists ==> HasRole(a.lists[id], t, None)
    ensures Accounted(b, t, ListsOf(a, t), variants, 0) && ListsOf(a, t) <= ListsOf(b, t)
    ensures AllServe(b, t, variants, slices, [])
  {
  }

  /** Creates or adopts all lists of the split; on failure deletes, best effort, the lists it created. */
  method SegmentForHoldout(lm: Listmonk, t: TestId, variants: seq<VariantId>, slices: Slices)
    returns (sig: Signal, lists: seq<Mapping>, holdout: ListId)
    requires lm.Valid() && lm.AlwaysUnique(t) && t < lm.nextTest
    requires Distinct(variants) && |variants| == |slices.variants|
    modifies lm
    ensures lm.Valid() && lm.AlwaysUnique(t) && lm.nextTest == old(lm.nextTest)
    ensures lm.remote.campaigns == old(lm.remote).campaigns
    ensures sig.Failed? ==> sig.cause == RemoteError || ListTagsConfused(old(lm.remote), t)
    ensures sig.Done? ==> |lists| == |variants| && AllServe(lm.remote, t, variants, slices.variants, lists)
                          && Serves(lm.remote, holdout, t, None, slices.holdout)
    ensures old(lm.faults) == [] ==> (sig.Done? || ListTagsConfused(old(lm.remote), t)) && lm.faults == []
  {
    hide *;
    lists, holdout := [], 0;
    var found: set<ListId>;
    sig, found := lm.FindLists(t);
    if !sig.Done? {
      return;
    }
    if ListTagsConfused(lm.remote, t) {
      return Failed(AmbiguousTags), lists, holdout;
    }
    var created: seq<ListId> := [];
    var adopted := PickAdopted(lm.remote, found, None);
    NowUnique(lm, t);
    NothingYet(lm.remote, t, variants);
    AdoptedFitsRole(lm.remote, t, None, found, variants, 0, adopted);
    sig, holdout, created := EnsureList(lm, t, None, adopted, slices.holdout);
    if sig.Done? {
      HoldoutEnsured(old(lm.remote), lm.remote, t, holdout, variants, slices.variants, slices.holdout);
    }
    var i := 0;
    while sig.Done? && i < |variants|
      invariant lm.Valid() && lm.AlwaysUnique(t) && lm.nextTest == old(lm.nextTest)
      invariant lm.remote.campaigns == old(lm.remote).campaigns
      invariant sig.Failed? ==> sig.cause == RemoteError
      invariant 0 <= i <= |variants|
      invariant old(lm.faults) == [] ==> sig.Done? && lm.faults == []
      invariant sig.Done? ==> i == |lists| && AllServe(lm.remote, t, variants, slices.variants, lists)
                              && Serves(lm.remote, holdout, t, None, slices.holdout)
                              && Accounted(lm.remote, t, found, variants, i) && found <= ListsOf(lm.remote, t)
    {
      ghost var before := lm.remote;
      adopted := PickAdopted(lm.remote, found, Some(variants[i]));
      NowUnique(lm, t);
      AdoptedFitsRole(lm.remote, t, Some(variants[i]), found, variants, i, adopted);
      var ensured, id, made := EnsureList(lm, t, Some(variants[i]), adopted, slices.variants[i]);
      sig, created := ensured, created + made;
      if sig.Done? {
        OthersStillServe(before, lm.remote, t, id, holdout, slices.holdout, variants, slices.variants, lists, found, i);
        lists := lists + [Mapping(variants[i], id)];
        i := i + 1;
      }
    }
    if sig.Failed? {
      var rolledBack := DeleteListsBestEffort(lm, created, t);
      if rolledBack.Crashed? {
        sig := Crashed;
      }
    }
  }
}
