/**
 Deterministic assignment of an audience to variants and a holdout (packages/abtest/src/assignment.ts): ranking by
 digest, slicing by exact sizes, the manifest, and the lookups that re-derive it.  SHA-256 is any function of strings.
 */
module Assignment {
  import opened Prelude
  import opened Sorting
  import opened Apportionment

  datatype Member = Member(id: nat, uuid: string)

  datatype Variant = Variant(id: string, percentage: real)

  // ---------------------------------------------------------------------------------
  // String order
  // ---------------------------------------------------------------------------------

  /** Lexicographic order. */
  predicate Less(a: string, b: string) {
    b != [] && (a == [] || a[0] < b[0] || (a[0] == b[0] && Less(a[1..], b[1..])))
  }

  lemma {:induction false} LessAsymmetric(a: string, b: string)
    requires Less(a, b)
    ensures !Less(b, a)
  {
    if a != [] && a[0] == b[0] {
      LessAsymmetric(a[1..], b[1..]);
    }
  }

  lemma {:induction false} LessTransitive(a: string, b: string, c: string)
    requires Less(a, b) && Less(b, c)
    ensures Less(a, c)
  {
    if a != [] && a[0] == b[0] == c[0] {
      LessTransitive(a[1..], b[1..], c[1..]);
    }
  }

  lemma {:induction false} LessTotal(a: string, b: string)
    ensures a == b || Less(a, b) || Less(b, a)
  {
    if a != [] && b != [] && a[0] == b[0] {
      LessTotal(a[1..], b[1..]);
      assert a == [a[0]] + a[1..] && b == [b[0]] + b[1..];
    }
  }

  /** `k` is where two texts part: one of them ends there, or their characters differ there. */
  predicate PartAt(a: string, b: string, k: nat) {
    k <= |a| && k <= |b| && a[..k] == b[..k] && (k == |a| || k == |b| || a[k] != b[k])
  }

  /** Where they part, the smaller text ends or has the smaller character. */
  lemma {:induction false} LessWhereTheyPart(a: string, b: string, k: nat)
    requires PartAt(a, b, k)
    ensures Less(a, b) <==> k < |b| && (k == |a| || a[k] < b[k])
  {
    if k > 0 {
      assert a[..k][0] == b[..k][0];
      assert a[1..][..k - 1] == a[..k][1..] && b[1..][..k - 1] == b[..k][1..];
      LessWhereTheyPart(a[1..], b[1..], k - 1);
    }
  }

  const BY_TEXT: (string, string) -> bool := (a: string, b: string) => Less(a, b)

  lemma TextOrder()
    ensures StrictWeak(BY_TEXT)
    ensures forall s: seq<string> :: Separates(s, BY_TEXT)
  {
    hide Less;
    forall a, b | BY_TEXT(a, b) ensures !BY_TEXT(b, a) {
      LessAsymmetric(a, b);
    }
    forall a, b, c | BY_TEXT(a, b) ensures BY_TEXT(a, c) || BY_TEXT(c, b) {
      LessSplits(a, b, c);
    }
    forall s: seq<string>, x, y | x in s && y in s && x != y ensures BY_TEXT(x, y) || BY_TEXT(y, x) {
      LessTotal(x, y);
    }
  }

  lemma LessSplits(a: string, b: string, c: string)
    requires Less(a, b)
    ensures Less(a, c) || Less(c, b)
  {
    LessTotal(a, c);
    if Less(c, a) {
      LessTransitive(c, a, b);
    }
  }

  // ---------------------------------------------------------------------------------
  // Ranking
  // ---------------------------------------------------------------------------------

  type Hash = string -> string

  function Join(parts: seq<string>, separator: string): string {
    if parts == [] then []
    else if |parts| == 1 then parts[0]
    else parts[0] + separator + Join(parts[1..], separator)
  }

  function Digest(sha: Hash, testId: string, seed: string, uuid: string): string {
    sha(Join(["abtest-assignment:v1", testId, seed, uuid], "\0"))
  }

  /** No part contains the separator. */
  predicate Free(parts: seq<string>, separator: char) {
    forall i :: 0 <= i < |parts| ==> separator !in parts[i]
  }

  lemma FirstPart(a: seq<string>, b: seq<string>, separator: char)
    requires |a| > 1 && |b| > 1 && separator !in a[0] && separator !in b[0]
    requires Join(a, [separator]) == Join(b, [separator])
    ensures a[0] == b[0] && Join(a[1..], [separator]) == Join(b[1..], [separator])
  {
    var text, m, n := Join(a, [separator]), |a[0]|, |b[0]|;
    assert text == a[0] + ([separator] + Join(a[1..], [separator]));
    assert text == b[0] + ([separator] + Join(b[1..], [separator]));
    assert text[m] == separator == text[n];
    assert text[..m] == a[0] && text[..n] == b[0];
    assert text[m + 1..] == Join(a[1..], [separator]) && text[n + 1..] == Join(b[1..], [separator]);
  }

  lemma SeveralParts(a: seq<string>, separator: char)
    requires |a| > 1
    ensures separator in Join(a, [separator])
  {
    assert Join(a, [separator])[|a[0]|] == separator;
  }

  /** A joined text tells its parts, as long as none of them contains the separator. */
  lemma {:induction false} JoinInjective(a: seq<string>, b: seq<string>, separator: char)
    requires Free(a, separator) && Free(b, separator) && a != [] && b != []
    requires Join(a, [separator]) == Join(b, [separator])
    ensures a == b
  {
    hide Join;
    if |a| > 1 && |b| > 1 {
      FirstPart(a, b, separator);
      JoinInjective(a[1..], b[1..], separator);
      assert a == [a[0]] + a[1..] && b == [b[0]] + b[1..];
    } else if |a| > 1 {
      SeveralParts(a, separator);
      SinglePart(b, separator);
    } else if |b| > 1 {
      SeveralParts(b, separator);
      SinglePart(a, separator);
    } else {
      SinglePart(a, separator);
      SinglePart(b, separator);
    }
  }

  lemma SinglePart(a: seq<string>, separator: char)
    requires |a| == 1
    ensures Join(a, [separator]) == a[0] && a == [a[0]]
  {
  }

  /** The text that is hashed to rank a member. */
  function RankingText(testId: string, seed: string, uuid: string): string {
    "abtest-assignment:v1" + "\0" + testId + "\0" + seed + "\0" + uuid
  }

  /** A digest is the hash of a text that names the test, the seed and the member, and no other text names them. */
  lemma DigestText(sha: Hash, t: string, s: string, u: string, t': string, s': string, u': string)
    requires Free([t, s, u, t', s', u'], '\0')
    ensures Digest(sha, t, s, u) == sha(RankingText(t, s, u))
    ensures RankingText(t, s, u) == RankingText(t', s', u') ==> t == t' && s == s' && u == u'
  {
    var head := "abtest-assignment:v1";
    assert '\0' !in head;
    var a, b := [head, t, s, u], [head, t', s', u'];
    JoinFour(head, t, s, u);
    JoinFour(head, t', s', u');
    var all := [t, s, u, t', s', u'];
    assert t == all[0] && s == all[1] && u == all[2] && t' == all[3] && s' == all[4] && u' == all[5];
    if RankingText(t, s, u) == RankingText(t', s', u') {
      assert Free(a, '\0') && Free(b, '\0');
      JoinInjective(a, b, '\0');
      assert a[1] == b[1] && a[2] == b[2] && a[3] == b[3];
    }
  }

  lemma JoinFour(a: string, b: string, c: string, d: string)
    ensures Join([a, b, c, d], "\0") == a + "\0" + b + "\0" + c + "\0" + d
  {
    assert [a, b, c, d][1..] == [b, c, d] && [b, c, d][1..] == [c, d] && [c, d][1..] == [d];
    assert Join([d], "\0") == d;
    assert Join([c, d], "\0") == c + "\0" + d;
    assert Join([b, c, d], "\0") == b + "\0" + (c + "\0" + d);
  }

  /** Digest first, uuid on a tie. */
  predicate RanksBefore(sha: Hash, testId: string, seed: string, a: Member, b: Member) {
    var x, y := Digest(sha, testId, seed, a.uuid), Digest(sha, testId, seed, b.uuid);
    if x != y then Less(x, y) else Less(a.uuid, b.uuid)
  }

  function Ranking(sha: Hash, testId: string, seed: string): (Member, Member) -> bool {
    (a: Member, b: Member) => RanksBefore(sha, testId, seed, a, b)
  }

  function Rank(sha: Hash, testId: string, seed: string, members: seq<Member>): seq<Member> {
    Sort(members, Ranking(sha, testId, seed))
  }

  predicate DistinctUuids(members: seq<Member>) {
    forall i, j :: 0 <= i < j < |members| ==> members[i].uuid != members[j].uuid
  }

  lemma RankSplits(sha: Hash, testId: string, seed: string, a: Member, b: Member, c: Member)
    requires RanksBefore(sha, testId, seed, a, b)
    ensures !RanksBefore(sha, testId, seed, b, a)
    ensures RanksBefore(sha, testId, seed, a, c) || RanksBefore(sha, testId, seed, c, b)
  {
    hide Less, Digest;
    var x, y := Digest(sha, testId, seed, a.uuid), Digest(sha, testId, seed, b.uuid);
    var z := Digest(sha, testId, seed, c.uuid);
    if x != y {
      LessAsymmetric(x, y);
      LessSplits(x, y, z);
    } else {
      LessAsymmetric(a.uuid, b.uuid);
      LessSplits(a.uuid, b.uuid, c.uuid);
      LessTotal(x, z);
    }
  }

  lemma RankingOrder(sha: Hash, testId: string, seed: string)
    ensures StrictWeak(Ranking(sha, testId, seed))
  {
    hide RanksBefore;
    var before := Ranking(sha, testId, seed);
    forall a, b | before(a, b) ensures !before(b, a) {
      RankSplits(sha, testId, seed, a, b, a);
    }
    forall a, b, c | before(a, b) ensures before(a, c) || before(c, b) {
      RankSplits(sha, testId, seed, a, b, c);
    }
  }

  /** Ranked members stand in the order of their digests, and of their uuids where digests agree. */
  lemma RankedByDigest(sha: Hash, testId: string, seed: string, members: seq<Member>, i: nat, j: nat)
    requires i < j < |members|
    ensures var r := Rank(sha, testId, seed, members);
            var x, y := Digest(sha, testId, seed, r[i].uuid), Digest(sha, testId, seed, r[j].uuid);
            Less(x, y) || (x == y && (Less(r[i].uuid, r[j].uuid) || r[i].uuid == r[j].uuid))
  {
    hide Less, Digest;
    var r := Rank(sha, testId, seed, members);
    RankingOrder(sha, testId, seed);
    SortSorts(members, Ranking(sha, testId, seed));
    assert !RanksBefore(sha, testId, seed, r[j], r[i]);
    LessTotal(Digest(sha, testId, seed, r[i].uuid), Digest(sha, testId, seed, r[j].uuid));
    LessTotal(r[i].uuid, r[j].uuid);
  }

  lemma RankingSeparates(sha: Hash, testId: string, seed: string, members: seq<Member>)
    requires DistinctUuids(members)
    ensures Separates(members, Ranking(sha, testId, seed))
  {
    hide Less, Digest;
    forall a, b | a in members && b in members && a != b
      ensures RanksBefore(sha, testId, seed, a, b) || RanksBefore(sha, testId, seed, b, a)
    {
      var i :| 0 <= i < |members| && members[i] == a;
      var j :| 0 <= j < |members| && members[j] == b;
      assert i < j || j < i;
      LessTotal(a.uuid, b.uuid);
      LessTotal(Digest(sha, testId, seed, a.uuid), Digest(sha, testId, seed, b.uuid));
    }
  }

  /** The ranking does not depend on the order in which the members were read. */
  lemma RankOrderIndependent(sha: Hash, testId: string, seed: string, a: seq<Member>, b: seq<Member>)
    requires multiset(a) == multiset(b) && DistinctUuids(a)
    ensures Rank(sha, testId, seed, a) == Rank(sha, testId, seed, b)
  {
    RankingOrder(sha, testId, seed);
    RankingSeparates(sha, testId, seed, a);
    SortOrderIndependent(a, b, Ranking(sha, testId, seed));
  }

  /** And it is a rearrangement of the members. */
  lemma RankPermutes(sha: Hash, testId: string, seed: string, members: seq<Member>)
    requires DistinctUuids(members)
    ensures var r := Rank(sha, testId, seed, members);
            && |r| == |members| && multiset(r) == multiset(members) && DistinctUuids(r)
            && forall m :: m in r <==> m in members
  {
    var r := Rank(sha, testId, seed, members);
    SortPermutes(members, Ranking(sha, testId, seed));
    assert Distinct(members);
    DistinctPermutation(members, r);
    forall i, j | 0 <= i < j < |r| ensures r[i].uuid != r[j].uuid {
      assert r[i] in members && r[j] in members && r[i] != r[j];
      UuidsDiffer(members, r[i], r[j]);
    }
  }

  lemma UuidsDiffer(members: seq<Member>, a: Member, b: Member)
    requires DistinctUuids(members) && a in members && b in members && a != b
    ensures a.uuid != b.uuid
  {
    var i :| 0 <= i < |members| && members[i] == a;
    var j :| 0 <= j < |members| && members[j] == b;
    assert i < j || j < i;
  }

  // ---------------------------------------------------------------------------------
  // Checksums
  // ---------------------------------------------------------------------------------

  function Uuids(members: seq<Member>): (r: seq<string>)
    ensures |r| == |members| && forall i :: 0 <= i < |r| ==> r[i] == members[i].uuid
  {
    seq(|members|, i requires 0 <= i < |members| => members[i].uuid)
  }

  function Ids(members: seq<Member>): (r: seq<nat>)
    ensures |r| == |members| && forall i :: 0 <= i < |r| ==> r[i] == members[i].id
  {
    seq(|members|, i requires 0 <= i < |members| => members[i].id)
  }

  function Checksum(sha: Hash, uuids: seq<string>): string {
    sha(Join(Sort(uuids, BY_TEXT), "\n"))
  }

  /** Two groups with the same members share a checksum whatever their order. */
  lemma ChecksumOrderIndependent(sha: Hash, a: seq<string>, b: seq<string>)
    requires multiset(a) == multiset(b)
    ensures Checksum(sha, a) == Checksum(sha, b)
  {
    TextOrder();
    SortOrderIndependent(a, b, BY_TEXT);
  }

  /** Up to collisions of the hash a checksum identifies the members: different groups hash different texts. */
  lemma ChecksumIdentifies(sha: Hash, a: seq<string>, b: seq<string>)
    requires Free(a, '\n') && Free(b, '\n') && a != [] && b != []
    ensures Checksum(sha, a) == sha(Join(Sort(a, BY_TEXT), "\n"))
    ensures Checksum(sha, b) == sha(Join(Sort(b, BY_TEXT), "\n"))
    ensures Join(Sort(a, BY_TEXT), "\n") == Join(Sort(b, BY_TEXT), "\n") <==> multiset(a) == multiset(b)
  {
    hide Join, Sort;
    var x, y := Sort(a, BY_TEXT), Sort(b, BY_TEXT);
    SortPermutes(a, BY_TEXT);
    SortPermutes(b, BY_TEXT);
    if multiset(a) == multiset(b) {
      TextOrder();
      SortOrderIndependent(a, b, BY_TEXT);
    }
    if Join(x, "\n") == Join(y, "\n") {
      SortedFree(a, x);
      SortedFree(b, y);
      JoinInjective(x, y, '\n');
    }
  }

  lemma SortedFree(a: seq<string>, x: seq<string>)
    requires Free(a, '\n') && a != [] && multiset(x) == multiset(a)
    ensures Free(x, '\n') && x != []
  {
    forall i | 0 <= i < |x| ensures '\n' !in x[i] {
      assert x[i] in multiset(x);
      assert x[i] in a;
    }
    assert a[0] in multiset(x);
  }

  lemma RemoveAt<T>(s: seq<T>, i: nat)
    requires i < |s|
    ensures multiset(s) == multiset(s[..i] + s[i + 1..]) + multiset{s[i]}
  {
    assert s == s[..i] + [s[i]] + s[i + 1..];
  }

  lemma UuidsRemove(s: seq<Member>, i: nat)
    requires i < |s|
    ensures multiset(Uuids(s)) == multiset(Uuids(s[..i] + s[i + 1..])) + multiset{s[i].uuid}
  {
    RemoveAt(Uuids(s), i);
    assert Uuids(s)[..i] + Uuids(s)[i + 1..] == Uuids(s[..i] + s[i + 1..]);
  }

  /** The first element taken out of both. */
  lemma MatchFirst<T>(a: seq<T>, b: seq<T>) returns (i: nat)
    requires a != [] && multiset(a) == multiset(b)
    ensures i < |b| && b[i] == a[0]
    ensures multiset(a[1..]) == multiset(b[..i] + b[i + 1..])
  {
    assert a[0] in multiset(b);
    i :| 0 <= i < |b| && b[i] == a[0];
    RemoveAt(b, i);
    assert a == [a[0]] + a[1..];
    assert multiset(a) == multiset{a[0]} + multiset(a[1..]);
    assert multiset(a[1..]) == multiset(a) - multiset{a[0]};
    assert multiset(b[..i] + b[i + 1..]) == multiset(b) - multiset{a[0]};
  }

  lemma EmptyMultiset<T>(b: seq<T>)
    requires multiset(b) == multiset{}
    ensures b == []
  {
    assert |multiset(b)| == |b|;
  }

  lemma {:induction false} UuidsMultiset(a: seq<Member>, b: seq<Member>)
    requires multiset(a) == multiset(b)
    ensures multiset(Uuids(a)) == multiset(Uuids(b))
    decreases |a|
  {
    if a == [] {
      EmptyMultiset(b);
    } else {
      var i := MatchFirst(a, b);
      UuidsMultiset(a[1..], b[..i] + b[i + 1..]);
      UuidsRemove(b, i);
      assert Uuids(a) == [a[0].uuid] + Uuids(a[1..]);
    }
  }

  // ---------------------------------------------------------------------------------
  // Slices
  // ---------------------------------------------------------------------------------

  /** Where slice `g` starts. */
  function Start(sizes: seq<int>, g: nat): int
    requires g <= |sizes|
  {
    Sum(sizes[..g])
  }

  /** Sizes that cut a sequence of this length completely. */
  predicate Cuts(sizes: seq<int>, length: nat) {
    (forall g :: 0 <= g < |sizes| ==> sizes[g] >= 0) && Sum(sizes) == length
  }

  lemma StartBounds(sizes: seq<int>, g: nat, h: nat)
    requires (forall k :: 0 <= k < |sizes| ==> sizes[k] >= 0) && g <= h <= |sizes|
    ensures 0 <= Start(sizes, g) <= Start(sizes, h) <= Sum(sizes)
    ensures g < |sizes| ==> Start(sizes, g + 1) == Start(sizes, g) + sizes[g]
    ensures Start(sizes, |sizes|) == Sum(sizes)
  {
    SumsGrow(sizes, 0, g);
    SumsGrow(sizes, g, h);
    SumsGrow(sizes, h, |sizes|);
    assert sizes[..|sizes|] == sizes;
    if g < |sizes| {
      assert sizes[..g + 1][..g] == sizes[..g];
    }
  }

  lemma {:induction false} SumsGrow(sizes: seq<int>, g: nat, h: nat)
    requires (forall k :: 0 <= k < |sizes| ==> sizes[k] >= 0) && g <= h <= |sizes|
    ensures Sum(sizes[..g]) <= Sum(sizes[..h])
  {
    if g < h {
      SumsGrow(sizes, g, h - 1);
      assert sizes[..h][..h - 1] == sizes[..h - 1];
    }
  }

  function Slice<T>(s: seq<T>, sizes: seq<int>, g: nat): (r: seq<T>)
    requires Cuts(sizes, |s|) && g < |sizes|
    ensures |r| == sizes[g]
  {
    StartBounds(sizes, g, g + 1);
    s[Start(sizes, g)..Start(sizes, g) + sizes[g]]
  }

  function Flatten<T>(parts: seq<seq<T>>): seq<T> {
    if parts == [] then [] else Flatten(parts[..|parts| - 1]) + parts[|parts| - 1]
  }

  function Slices<T>(s: seq<T>, sizes: seq<int>): (r: seq<seq<T>>)
    requires Cuts(sizes, |s|)
    ensures |r| == |sizes| && forall g :: 0 <= g < |r| ==> r[g] == Slice(s, sizes, g)
  {
    seq(|sizes|, g requires 0 <= g < |sizes| => Slice(s, sizes, g))
  }

  lemma {:induction false} FirstSlices<T>(s: seq<T>, sizes: seq<int>, g: nat)
    requires Cuts(sizes, |s|) && g <= |sizes|
    ensures 0 <= Start(sizes, g) <= |s| && Flatten(Slices(s, sizes)[..g]) == s[..Start(sizes, g)]
  {
    hide Slice;
    StartBounds(sizes, g, |sizes|);
    if g == 0 {
      assert sizes[..0] == [];
    } else {
      FirstSlices(s, sizes, g - 1);
      StartBounds(sizes, g - 1, g);
      assert Slices(s, sizes)[..g][..g - 1] == Slices(s, sizes)[..g - 1];
      SliceIs(s, sizes, g - 1);
    }
  }

  lemma SliceIs<T>(s: seq<T>, sizes: seq<int>, g: nat)
    requires Cuts(sizes, |s|) && g < |sizes|
    ensures 0 <= Start(sizes, g) <= Start(sizes, g) + sizes[g] <= |s|
    ensures Slice(s, sizes, g) == s[Start(sizes, g)..Start(sizes, g) + sizes[g]]
  {
    StartBounds(sizes, g, g + 1);
  }

  /** The slices one after the other are the whole sequence: the first group gets those ranked first, and so on. */
  lemma SlicesInOrder<T>(s: seq<T>, sizes: seq<int>)
    requires Cuts(sizes, |s|)
    ensures Flatten(Slices(s, sizes)) == s
  {
    FirstSlices(s, sizes, |sizes|);
    StartBounds(sizes, |sizes|, |sizes|);
    assert Slices(s, sizes)[..|sizes|] == Slices(s, sizes) && s[..|s|] == s;
  }

  /** Every position lies in a slice. */
  lemma {:induction false} SliceOf(sizes: seq<int>, p: nat) returns (g: nat)
    requires (forall k :: 0 <= k < |sizes| ==> sizes[k] >= 0) && p < Sum(sizes)
    ensures g < |sizes| && Start(sizes, g) <= p < Start(sizes, g) + sizes[g]
  {
    var n := |sizes| - 1;
    assert sizes[..n + 1] == sizes;
    if p < Sum(sizes[..n]) {
      g := SliceOf(sizes[..n], p);
      assert sizes[..n][..g] == sizes[..g];
    } else {
      g := n;
    }
  }

  /** Slices do not overlap. */
  lemma SlicesApart(sizes: seq<int>, g: nat, h: nat, p: int, q: int)
    requires (forall k :: 0 <= k < |sizes| ==> sizes[k] >= 0) && g < |sizes| && h < |sizes|
    requires Start(sizes, g) <= p < Start(sizes, g) + sizes[g] && Start(sizes, h) <= q < Start(sizes, h) + sizes[h]
    ensures p == q ==> g == h
  {
    if g < h {
      StartBounds(sizes, g, h);
      StartBounds(sizes, g + 1, h);
    } else if h < g {
      StartBounds(sizes, h, g);
      StartBounds(sizes, h + 1, g);
    }
  }

  lemma SliceAt<T>(s: seq<T>, sizes: seq<int>, g: nat, p: nat)
    requires Cuts(sizes, |s|) && g < |sizes| && Start(sizes, g) <= p < Start(sizes, g) + sizes[g]
    ensures p < |s| && s[p] in Slice(s, sizes, g)
  {
    StartBounds(sizes, g, g + 1);
    assert Slice(s, sizes, g)[p - Start(sizes, g)] == s[p];
  }

  lemma SlicePosition<T>(s: seq<T>, sizes: seq<int>, g: nat, x: T) returns (p: nat)
    requires Cuts(sizes, |s|) && g < |sizes| && x in Slice(s, sizes, g)
    ensures Start(sizes, g) <= p < Start(sizes, g) + sizes[g] && p < |s| && s[p] == x
  {
    StartBounds(sizes, g, g + 1);
    var k :| 0 <= k < sizes[g] && Slice(s, sizes, g)[k] == x;
    p := Start(sizes, g) + k;
  }

  /** The slices partition the ranked audience: each member is in one slice, and in one only. */
  lemma SlicesPartition(ranked: seq<Member>, sizes: seq<int>, m: Member) returns (g: nat)
    requires Cuts(sizes, |ranked|) && DistinctUuids(ranked) && m in ranked
    ensures g < |sizes| && m in Slice(ranked, sizes, g)
    ensures forall h: nat :: h < |sizes| && m in Slice(ranked, sizes, h) ==> h == g
  {
    var p :| 0 <= p < |ranked| && ranked[p] == m;
    g := SliceOf(sizes, p);
    SliceAt(ranked, sizes, g, p);
    forall h: nat | h < |sizes| && m in Slice(ranked, sizes, h) ensures h == g {
      var q := SlicePosition(ranked, sizes, h, m);
      assert p < q || q < p || p == q;
      SlicesApart(sizes, g, h, p, q);
    }
  }
}
