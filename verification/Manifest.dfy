/**
 The assignment manifest (packages/abtest/src/assignment.ts), the slices that populate the lists
 (packages/abtest/src/listmonk-integration.ts) and the lookups that tell in which group a subscriber is.
 */
module Manifest {
  import opened Prelude
  import opened Apportionment
  import opened Allocation
  import opened Assignment

  /** A variant's group, or the holdout when there is no variant id. */
  datatype Group = Group(variant: Option<string>, expectedCount: int, checksum: string)

  datatype AssignmentManifest = AssignmentManifest(
    seed: string, audienceChecksum: string, groups: seq<Group>, assignedCount: nat)

  datatype Snapshot = Snapshot(count: int, checksum: string)

  datatype ManifestError = SizeMismatch | NoVariants | BadAllocation(cause: AllocationError) | ChecksumMismatch

  function Sizes(groups: seq<Group>): (r: seq<int>)
    ensures |r| == |groups| && forall g :: 0 <= g < |r| ==> r[g] == groups[g].expectedCount
  {
    seq(|groups|, g requires 0 <= g < |groups| => groups[g].expectedCount)
  }

  function Weights(variants: seq<Variant>): (r: seq<real>)
    ensures |r| == |variants| && forall i :: 0 <= i < |r| ==> r[i] == variants[i].percentage
  {
    seq(|variants|, i requires 0 <= i < |variants| => variants[i].percentage)
  }

  /** The test group: its share of the audience rounded half up. */
  function TestSize(audience: nat, percentage: real): int {
    HalfUp(Share(audience as real, percentage, 100.0))
  }

  /** One size per variant, apportioned by weight, and the rest for the holdout. */
  ghost predicate GroupSizes(audience: nat, weights: seq<real>, percentage: real, sizes: seq<int>) {
    && |sizes| == |weights| + 1 && Cuts(sizes, audience)
    && SumR(weights) > 0.0
    && Sum(sizes[..|weights|]) == TestSize(audience, percentage)
    && Apportioned(Quotas(TestSize(audience, percentage) as real, weights), sizes[..|weights|])
  }

  /** The sizes are determined by the inputs. */
  lemma GroupSizesUnique(audience: nat, weights: seq<real>, percentage: real, a: seq<int>, b: seq<int>)
    requires GroupSizes(audience, weights, percentage, a) && GroupSizes(audience, weights, percentage, b)
    ensures a == b
  {
    var k := |weights|;
    ApportionmentUnique(Quotas(TestSize(audience, percentage) as real, weights), a[..k], b[..k]);
    assert a[..k] == b[..k];
    assert a == a[..k] + [a[k]] && b == b[..k] + [b[k]];
  }

  /** What a manifest of this audience is. */
  ghost predicate IsManifest(sha: Hash, testId: string, seed: string, members: seq<Member>, variants: seq<Variant>,
                             percentage: real, m: AssignmentManifest) {
    var ranked := Rank(sha, testId, seed, members);
    var sizes := Sizes(m.groups);
    && m.seed == seed && m.assignedCount == |members| == |ranked|
    && m.audienceChecksum == Checksum(sha, Uuids(members))
    && |m.groups| == |variants| + 1
    && GroupSizes(|members|, Weights(variants), percentage, sizes)
    && (forall g :: 0 <= g < |variants| ==> m.groups[g].variant == Some(variants[g].id))
    && m.groups[|variants|].variant == None
    && (forall g :: 0 <= g < |sizes| ==> m.groups[g].checksum == Checksum(sha, Uuids(Slice(ranked, sizes, g))))
  }

  /** The same audience in any order has the same manifest. */
  lemma ManifestUnique(sha: Hash, testId: string, seed: string, a: seq<Member>, b: seq<Member>, variants: seq<Variant>,
                       percentage: real, m: AssignmentManifest, n: AssignmentManifest)
    requires multiset(a) == multiset(b) && DistinctUuids(a)
    requires IsManifest(sha, testId, seed, a, variants, percentage, m)
    requires IsManifest(sha, testId, seed, b, variants, percentage, n)
    ensures m == n
  {
    hide GroupSizes, Checksum, Rank, Cuts, Slice, Uuids;
    RankOrderIndependent(sha, testId, seed, a, b);
    UuidsMultiset(a, b);
    ChecksumOrderIndependent(sha, Uuids(a), Uuids(b));
    GroupSizesUnique(|a|, Weights(variants), percentage, Sizes(m.groups), Sizes(n.groups));
    forall g | 0 <= g < |m.groups| ensures m.groups[g] == n.groups[g] {
      assert Sizes(m.groups)[g] == Sizes(n.groups)[g];
    }
  }

  // ---------------------------------------------------------------------------------
  // Building
  // ---------------------------------------------------------------------------------

  /** The inputs for which a manifest is built. */
  predicate Buildable(sha: Hash, members: seq<Member>, snapshot: Snapshot, variants: seq<Variant>, percentage: real) {
    && |members| == snapshot.count && ValidWeights(Weights(variants)) && 0.0 <= percentage <= 100.0
    && (snapshot.checksum == "" || snapshot.checksum == Checksum(sha, Uuids(members)))
  }

  method BuildManifest(sha: Hash, testId: string, seed: string, snapshot: Snapshot, members: seq<Member>,
                       variants: seq<Variant>, percentage: real)
    returns (r: Result<AssignmentManifest, ManifestError>)
    ensures r.Ok? <==> Buildable(sha, members, snapshot, variants, percentage)
    ensures r == Err(SizeMismatch) <==> |members| != snapshot.count
    ensures r == Err(NoVariants) <==> |members| == snapshot.count && variants == []
    ensures r.Ok? ==> IsManifest(sha, testId, seed, members, variants, percentage, r.value)
  {
    hide Rank, Checksum, Apportioned, Share, Sum, SumR;
    if |members| != snapshot.count {
      return Err(SizeMismatch);
    }
    if variants == [] {
      return Err(NoVariants);
    }
    var ranked := Rank(sha, testId, seed, members);
    assert |ranked| == |members| by { RankLength(sha, testId, seed, members); }
    var split := AllocateTestAndHoldout(|members| as real, percentage);
    if split.Err? {
      return Err(BadAllocation(split.error));
    }
    var testSize, holdoutSize := split.value.0, split.value.1;
    var counts := AllocateByLargestRemainder(testSize as real, Weights(variants));
    if counts.Err? {
      return Err(BadAllocation(counts.error));
    }
    SizesCut(counts.value, holdoutSize, Weights(variants), |members|, percentage);
    var groups := CutGroups(sha, ranked, variants, counts.value, holdoutSize);
    var checksum := Checksum(sha, Uuids(members));
    if snapshot.checksum != "" && checksum != snapshot.checksum {
      return Err(ChecksumMismatch);
    }
    r := Ok(AssignmentManifest(seed, checksum, groups, |members|));
    assert Sizes(groups) == counts.value + [holdoutSize];
  }

  lemma RankLength(sha: Hash, testId: string, seed: string, members: seq<Member>)
    ensures |Rank(sha, testId, seed, members)| == |members|
  {
  }

  lemma SizesCut(counts: seq<int>, holdout: int, weights: seq<real>, audience: nat, percentage: real)
    requires ValidWeights(weights) && SumR(weights) > 0.0 && |counts| == |weights|
    requires Sum(counts) == TestSize(audience, percentage) && holdout >= 0 && Sum(counts) + holdout == audience
    requires Sum(counts) >= 0 && Apportioned(Quotas(Sum(counts) as real, weights), counts)
    ensures GroupSizes(audience, weights, percentage, counts + [holdout])
  {
    var sizes := counts + [holdout];
    assert sizes[..|weights|] == counts;
    assert Sum(sizes) == Sum(counts) + holdout;
    forall i | 0 <= i < |counts| ensures counts[i] >= 0 {
      ShareOrderWeak(Sum(counts) as real, weights[i], SumR(weights));
    }
  }

  lemma ShareOrderWeak(total: real, weight: real, weightSum: real)
    requires weightSum > 0.0 && total >= 0.0 && weight > 0.0
    ensures Share(total, weight, weightSum) >= 0.0
  {
    ProductSign(total, weight);
  }

  /** Cuts the ranked audience with a cursor: variants first, what remains is the holdout. */
  method CutGroups(sha: Hash, ranked: seq<Member>, variants: seq<Variant>, counts: seq<int>, holdoutSize: int)
    returns (groups: seq<Group>)
    requires |counts| == |variants| && Cuts(counts + [holdoutSize], |ranked|)
    ensures |groups| == |variants| + 1 && Sizes(groups) == counts + [holdoutSize]
    ensures forall g :: 0 <= g < |variants| ==> groups[g].variant == Some(variants[g].id)
    ensures groups[|variants|].variant == None
    ensures forall g :: 0 <= g < |groups| ==>
              groups[g].checksum == Checksum(sha, Uuids(Slice(ranked, counts + [holdoutSize], g)))
  {
    hide Checksum, Sum;
    var sizes := counts + [holdoutSize];
    groups := [];
    var cursor := 0;
    assert sizes[..0] == [];
    StartBounds(sizes, 0, 0);
    assert Start(sizes, 0) == 0 by { NothingSums(); }
    for index := 0 to |variants|
      invariant |groups| == index && cursor == Start(sizes, index) && 0 <= cursor <= |ranked|
      invariant forall g :: 0 <= g < index ==>
                  groups[g] == Group(Some(variants[g].id), sizes[g], Checksum(sha, Uuids(Slice(ranked, sizes, g))))
    {
      StartBounds(sizes, index, index + 1);
      var size := counts[index];
      var slice := ranked[cursor..cursor + size];
      groups := groups + [Group(Some(variants[index].id), size, Checksum(sha, Uuids(slice)))];
      cursor := cursor + size;
    }
    StartBounds(sizes, |variants|, |sizes|);
    var rest := ranked[cursor..];
    assert rest == Slice(ranked, sizes, |variants|);
    groups := groups + [Group(None, holdoutSize, Checksum(sha, Uuids(rest)))];
  }

  lemma NothingSums()
    ensures Sum([]) == 0
  {
  }

  // ---------------------------------------------------------------------------------
  // Populating lists
  // ---------------------------------------------------------------------------------

  /** Re-ranks the audience and slices it by the manifest's counts; the last entry is for the holdout list. */
  method ListSlices(sha: Hash, testId: string, seed: string, members: seq<Member>, m: AssignmentManifest)
    returns (lists: seq<seq<nat>>)
    requires m.groups != [] && Cuts(Sizes(m.groups), |members|)
    ensures |lists| == |m.groups|
    ensures |Rank(sha, testId, seed, members)| == |members|
    ensures forall g :: 0 <= g < |lists| ==>
              lists[g] == Ids(Slice(Rank(sha, testId, seed, members), Sizes(m.groups), g))
  {
    hide Sum;
    var ranked := Rank(sha, testId, seed, members);
    var sizes := Sizes(m.groups);
    lists := [];
    var cursor := 0;
    StartBounds(sizes, 0, 0);
    assert sizes[..0] == [];
    assert Start(sizes, 0) == 0 by { NothingSums(); }
    var k := |m.groups| - 1;
    for g := 0 to k
      invariant |lists| == g && cursor == Start(sizes, g) && 0 <= cursor <= |ranked|
      invariant forall h :: 0 <= h < g ==> lists[h] == Ids(Slice(ranked, sizes, h))
    {
      StartBounds(sizes, g, g + 1);
      lists := lists + [Ids(ranked[cursor..cursor + m.groups[g].expectedCount])];
      cursor := cursor + m.groups[g].expectedCount;
    }
    StartBounds(sizes, k, k + 1);
    assert ranked[cursor..] == Slice(ranked, sizes, k);
    lists := lists + [Ids(ranked[cursor..])];
  }

  /** `m` is the manifest of the members and `lists` are the ids of its slices. */
  ghost predicate IsSplit(sha: Hash, testId: string, seed: string, members: seq<Member>, variants: seq<Variant>,
                          percentage: real, m: AssignmentManifest, lists: seq<seq<nat>>) {
    var ranked, sizes := Rank(sha, testId, seed, members), Sizes(m.groups);
    && IsManifest(sha, testId, seed, members, variants, percentage, m)
    && |ranked| == |members| && Cuts(sizes, |members|) && |lists| == |sizes|
    && forall g :: 0 <= g < |lists| ==> lists[g] == Ids(Slice(ranked, sizes, g))
  }

  /** A split seen from outside: who has which list, how long the lists are, and the size of the test group. */
  lemma SplitCounts(sha: Hash, testId: string, seed: string, members: seq<Member>, variants: seq<Variant>,
                    percentage: real, m: AssignmentManifest, lists: seq<seq<nat>>)
    requires IsSplit(sha, testId, seed, members, variants, percentage, m, lists)
    ensures m.seed == seed && |m.groups| == |lists| == |variants| + 1
    ensures forall g :: 0 <= g < |variants| ==> m.groups[g].variant == Some(variants[g].id)
    ensures m.groups[|variants|].variant == None
    ensures forall g :: 0 <= g < |lists| ==> |lists[g]| == m.groups[g].expectedCount
    ensures |members| - |lists[|variants|]| == HalfUp(Share(|members| as real, percentage, 100.0))
  {
    hide Rank, Checksum, Weights, Apportioned, Share, HalfUp;
    var k, sizes := |variants|, Sizes(m.groups);
    assert sizes == sizes[..k] + [sizes[k]];
    assert Sum(sizes) == Sum(sizes[..k]) + sizes[k];
  }

  predicate DistinctNumbers(members: seq<Member>) {
    forall i, j :: 0 <= i < j < |members| ==> members[i].id != members[j].id
  }

  /** When ids and uuids correspond one to one, no numeric id goes to two lists, and every id goes to one. */
  lemma NoIdInTwoLists(sha: Hash, testId: string, seed: string, members: seq<Member>, sizes: seq<int>, id: nat)
    requires DistinctUuids(members) && DistinctNumbers(members) && Cuts(sizes, |members|)
    ensures |Rank(sha, testId, seed, members)| == |members|
    ensures var ranked := Rank(sha, testId, seed, members);
            && (id in Ids(members) <==> exists g :: 0 <= g < |sizes| && id in Ids(Slice(ranked, sizes, g)))
            && forall g, h :: 0 <= g < |sizes| && 0 <= h < |sizes| ==>
                 id in Ids(Slice(ranked, sizes, g)) && id in Ids(Slice(ranked, sizes, h)) ==> g == h
  {
    hide Rank, Cuts, Slice;
    var ranked := Rank(sha, testId, seed, members);
    RankPermutes(sha, testId, seed, members);
    if i :| 0 <= i < |members| && Ids(members)[i] == id {
      var g := SlicesPartition(ranked, sizes, members[i]);
      IdOf(Slice(ranked, sizes, g), members[i]);
    }
    forall g: nat | g < |sizes| && id in Ids(Slice(ranked, sizes, g)) ensures id in Ids(members) {
      var m := MemberOf(Slice(ranked, sizes, g), id);
      InSliceInRanked(ranked, sizes, g, m);
      IdOf(members, m);
    }
    forall g: nat, h: nat | g < |sizes| && h < |sizes|
      && id in Ids(Slice(ranked, sizes, g)) && id in Ids(Slice(ranked, sizes, h)) ensures g == h
    {
      var m := MemberOf(Slice(ranked, sizes, g), id);
      var n := MemberOf(Slice(ranked, sizes, h), id);
      InSliceInRanked(ranked, sizes, g, m);
      InSliceInRanked(ranked, sizes, h, n);
      SameIdSameMember(members, m, n);
      var k := SlicesPartition(ranked, sizes, m);
    }
  }

  lemma IdOf(members: seq<Member>, m: Member)
    requires m in members
    ensures m.id in Ids(members)
  {
    var i :| 0 <= i < |members| && members[i] == m;
    assert Ids(members)[i] == m.id;
  }

  lemma MemberOf(members: seq<Member>, id: nat) returns (m: Member)
    requires id in Ids(members)
    ensures m in members && m.id == id
  {
    var i :| 0 <= i < |members| && Ids(members)[i] == id;
    m := members[i];
  }

  lemma InSliceInRanked(ranked: seq<Member>, sizes: seq<int>, g: nat, m: Member)
    requires Cuts(sizes, |ranked|) && g < |sizes| && m in Slice(ranked, sizes, g)
    ensures m in ranked
  {
    var p := SlicePosition(ranked, sizes, g, m);
  }

  lemma SameIdSameMember(members: seq<Member>, a: Member, b: Member)
    requires DistinctNumbers(members) && a in members && b in members && a.id == b.id
    ensures a == b
  {
    var i :| 0 <= i < |members| && members[i] == a;
    var j :| 0 <= j < |members| && members[j] == b;
    assert i < j || j < i || i == j;
  }

  // ---------------------------------------------------------------------------------
  // Lookups
  // ---------------------------------------------------------------------------------

  /** The uuid is found in slice `g`. */
  predicate FoundIn(ranked: seq<Member>, sizes: seq<int>, uuid: string, g: nat) {
    && g < |sizes|
    && exists p :: Start(sizes, g) <= p < Start(sizes, g) + sizes[g] && 0 <= p < |ranked| && ranked[p].uuid == uuid
  }

  /** Walks the groups with a cursor, whatever their counts. */
  method GroupIndexOfRanked(ranked: seq<Member>, groups: seq<Group>, uuid: string) returns (index: int)
    ensures -1 <= index < |groups|
    ensures index >= 0 ==> FoundIn(ranked, Sizes(groups), uuid, index)
    ensures forall g: nat :: g < |groups| && (index < 0 || g < index) ==> !FoundIn(ranked, Sizes(groups), uuid, g)
  {
    hide Sum;
    var sizes := Sizes(groups);
    var cursor := 0;
    assert sizes[..0] == [];
    assert Start(sizes, 0) == 0 by { NothingSums(); }
    for g := 0 to |groups|
      invariant cursor == Start(sizes, g)
      invariant forall h: nat :: h < g ==> !FoundIn(ranked, sizes, uuid, h)
    {
      StartNext(sizes, g);
      var next := cursor + groups[g].expectedCount;
      var position := cursor;
      while position < next
        invariant cursor <= position && (position <= next || position == cursor)
        invariant forall p :: cursor <= p < position && 0 <= p < |ranked| ==> ranked[p].uuid != uuid
      {
        if 0 <= position < |ranked| && ranked[position].uuid == uuid {
          return g;
        }
        position := position + 1;
      }
      cursor := next;
    }
    index := -1;
  }

  lemma StartNext(sizes: seq<int>, g: nat)
    requires g < |sizes|
    ensures Start(sizes, g + 1) == Start(sizes, g) + sizes[g]
  {
    assert sizes[..g + 1][..g] == sizes[..g];
  }

  /** The audience behind a lookup: empty when it has drifted from the manifest. */
  function RankAndVerify(sha: Hash, testId: string, m: AssignmentManifest, members: seq<Member>): seq<Member> {
    if Checksum(sha, Uuids(members)) != m.audienceChecksum then [] else Rank(sha, testId, m.seed, members)
  }

  /** A correct answer to a lookup. */
  ghost predicate Answers(sha: Hash, testId: string, m: AssignmentManifest, members: seq<Member>, uuid: string,
                          index: int)
  {
    var ranked := RankAndVerify(sha, testId, m, members);
    && -1 <= index < |m.groups|
    && (index >= 0 ==> FoundIn(ranked, Sizes(m.groups), uuid, index))
    && forall g: nat :: g < |m.groups| && (index < 0 || g < index) ==> !FoundIn(ranked, Sizes(m.groups), uuid, g)
  }

  method GroupIndexForUuid(sha: Hash, m: AssignmentManifest, testId: string, members: seq<Member>, uuid: string)
    returns (index: int)
    ensures Answers(sha, testId, m, members, uuid, index)
  {
    hide FoundIn;
    var ranked := RankAndVerify(sha, testId, m, members);
    index := GroupIndexOfRanked(ranked, m.groups, uuid);
  }

  /** Ranks once and answers every request. */
  method GroupIndexForUuids(sha: Hash, m: AssignmentManifest, testId: string, members: seq<Member>, uuids: seq<string>)
    returns (found: map<string, int>)
    ensures forall u :: u in found <==> u in uuids
    ensures forall u :: u in uuids ==> Answers(sha, testId, m, members, u, found[u])
  {
    hide FoundIn;
    var ranked := RankAndVerify(sha, testId, m, members);
    found := map[];
    for i := 0 to |uuids|
      invariant forall u :: u in found <==> u in uuids[..i]
      invariant forall u :: u in found ==> Answers(sha, testId, m, members, u, found[u])
    {
      assert uuids[..i + 1] == uuids[..i] + [uuids[i]];
      var index := GroupIndexOfRanked(ranked, m.groups, uuids[i]);
      found := found[uuids[i] := index];
    }
    assert uuids[..|uuids|] == uuids;
  }

  /** A drifted audience is answered with -1. */
  lemma DriftAnswersNothing(sha: Hash, testId: string, m: AssignmentManifest, members: seq<Member>, uuid: string,
                            index: int)
    requires Answers(sha, testId, m, members, uuid, index)
    requires Checksum(sha, Uuids(members)) != m.audienceChecksum
    ensures index == -1
  {
  }

  /** Lookups agree with the manifest's slices, in whatever order the audience is read again. */
  lemma LookupFindsSlice(sha: Hash, testId: string, seed: string, members: seq<Member>, again: seq<Member>,
                         variants: seq<Variant>, percentage: real, m: AssignmentManifest, uuid: string, index: int)
    requires DistinctUuids(members) && multiset(members) == multiset(again)
    requires IsManifest(sha, testId, seed, members, variants, percentage, m)
    requires Answers(sha, testId, m, again, uuid, index)
    ensures index == -1 <==> uuid !in Uuids(members)
    ensures forall g: nat :: g < |m.groups| ==>
              (index == g <==> uuid in Uuids(Slice(Rank(sha, testId, seed, members), Sizes(m.groups), g)))
  {
    hide GroupSizes, Checksum, Rank, FoundIn, Slice, Cuts;
    var ranked, sizes := Rank(sha, testId, seed, members), Sizes(m.groups);
    assert Cuts(sizes, |members|) by { SizesDoCut(|members|, Weights(variants), percentage, sizes); }
    RankOrderIndependent(sha, testId, seed, members, again);
    UuidsMultiset(members, again);
    ChecksumOrderIndependent(sha, Uuids(members), Uuids(again));
    RankPermutes(sha, testId, seed, members);
    SameUuids(members, ranked, uuid);
    forall g: nat | g < |m.groups| ensures FoundIn(ranked, sizes, uuid, g) <==> uuid in Uuids(Slice(ranked, sizes, g)) {
      FoundInSlice(ranked, sizes, uuid, g);
    }
    FoundOnce(ranked, sizes, uuid);
    assert RankAndVerify(sha, testId, m, again) == ranked;
    if uuid in Uuids(members) {
      var g: nat :| g < |sizes| && FoundIn(ranked, sizes, uuid, g);
    }
  }

  lemma SizesDoCut(audience: nat, weights: seq<real>, percentage: real, sizes: seq<int>)
    requires GroupSizes(audience, weights, percentage, sizes)
    ensures Cuts(sizes, audience)
  {
  }

  lemma SameUuids(members: seq<Member>, ranked: seq<Member>, uuid: string)
    requires forall m :: m in ranked <==> m in members
    ensures uuid in Uuids(members) <==> uuid in Uuids(ranked)
  {
    if uuid in Uuids(members) {
      var i :| 0 <= i < |members| && Uuids(members)[i] == uuid;
      assert members[i] in ranked;
      var k :| 0 <= k < |ranked| && ranked[k] == members[i];
      assert Uuids(ranked)[k] == uuid;
    }
    if uuid in Uuids(ranked) {
      var i :| 0 <= i < |ranked| && Uuids(ranked)[i] == uuid;
      assert ranked[i] in members;
      var k :| 0 <= k < |members| && members[k] == ranked[i];
      assert Uuids(members)[k] == uuid;
    }
  }

  lemma FoundInSlice(ranked: seq<Member>, sizes: seq<int>, uuid: string, g: nat)
    requires Cuts(sizes, |ranked|) && g < |sizes|
    ensures FoundIn(ranked, sizes, uuid, g) <==> uuid in Uuids(Slice(ranked, sizes, g))
  {
    hide Sum;
    StartBounds(sizes, g, g + 1);
    var slice := Slice(ranked, sizes, g);
    assert forall k :: 0 <= k < |slice| ==> slice[k] == ranked[Start(sizes, g) + k];
    if FoundIn(ranked, sizes, uuid, g) {
      var p :| Start(sizes, g) <= p < Start(sizes, g) + sizes[g] && 0 <= p < |ranked| && ranked[p].uuid == uuid;
      assert Uuids(slice)[p - Start(sizes, g)] == uuid;
    }
    if uuid in Uuids(slice) {
      var k :| 0 <= k < |slice| && Uuids(slice)[k] == uuid;
      assert ranked[Start(sizes, g) + k].uuid == uuid;
    }
  }

  /** A uuid of the audience is found in exactly one slice, any other in none. */
  lemma FoundOnce(ranked: seq<Member>, sizes: seq<int>, uuid: string)
    requires Cuts(sizes, |ranked|) && DistinctUuids(ranked)
    ensures uuid in Uuids(ranked) <==> exists g: nat :: g < |sizes| && FoundIn(ranked, sizes, uuid, g)
    ensures forall g: nat, h: nat :: FoundIn(ranked, sizes, uuid, g) && FoundIn(ranked, sizes, uuid, h) ==> g == h
  {
    if uuid in Uuids(ranked) {
      var p :| 0 <= p < |ranked| && Uuids(ranked)[p] == uuid;
      var g := SliceOf(sizes, p);
      assert FoundIn(ranked, sizes, uuid, g);
    }
    forall g: nat | FoundIn(ranked, sizes, uuid, g) ensures uuid in Uuids(ranked) {
      var p :| Start(sizes, g) <= p < Start(sizes, g) + sizes[g] && 0 <= p < |ranked| && ranked[p].uuid == uuid;
      assert Uuids(ranked)[p] == uuid;
    }
    forall g: nat, h: nat | FoundIn(ranked, sizes, uuid, g) && FoundIn(ranked, sizes, uuid, h) ensures g == h {
      var p :| Start(sizes, g) <= p < Start(sizes, g) + sizes[g] && 0 <= p < |ranked| && ranked[p].uuid == uuid;
      var q :| Start(sizes, h) <= q < Start(sizes, h) + sizes[h] && 0 <= q < |ranked| && ranked[q].uuid == uuid;
      assert p < q || q < p || p == q;
      SlicesApart(sizes, g, h, p, q);
    }
  }
}
