/**
 Resolving the audience from paginated lists (packages/abtest/src/audience.ts) and handing it to the assignment
 (packages/abtest/src/listmonk-integration.ts): ids and uuids end up in one-to-one correspondence, so that no
 subscriber reaches two lists.
 */
module Audience {
  import opened Prelude
  import opened Sorting
  import opened Allocation
  import opened Assignment
  import opened Manifest

  const MAX_PAGES := 10_000

  datatype Subscriber = Subscriber(id: Option<nat>, uuid: Option<string>, enabled: bool)

  datatype Page = QueryFailed | Page(subscribers: seq<Subscriber>)

  /** What the server answers for a list and a page number. */
  type Server = (int, nat) -> Page

  datatype ResolveError = NoSourceLists | PageFailed | BadIdentity

  predicate HasIdentity(s: Subscriber) {
    s.id.Some? && s.uuid.Some? && s.uuid.value != ""
  }

  /** An eligible subscriber under this id and uuid. */
  predicate Lists(s: Subscriber, m: Member) {
    s.enabled && s.id == Some(m.id) && s.uuid == Some(m.uuid)
  }

  /** Two records that do not pull one identity apart. */
  predicate Agree(a: Subscriber, b: Subscriber) {
    a.enabled && b.enabled ==> (a.id == b.id <==> a.uuid == b.uuid)
  }

  /** Every eligible record has an identity, and ids and uuids correspond one to one. */
  predicate Consistent(all: seq<Subscriber>) {
    && (forall i :: 0 <= i < |all| && all[i].enabled ==> HasIdentity(all[i]))
    && (forall i, j :: 0 <= i < |all| && 0 <= j < |all| ==> Agree(all[i], all[j]))
  }

  predicate Occurs(all: seq<Subscriber>, m: Member) {
    exists i :: 0 <= i < |all| && Lists(all[i], m)
  }

  // ---------------------------------------------------------------------------------
  // What is read
  // ---------------------------------------------------------------------------------

  function Concat(a: Option<seq<Subscriber>>, b: Option<seq<Subscriber>>): Option<seq<Subscriber>> {
    if a.Some? && b.Some? then Some(a.value + b.value) else None
  }

  /** The records of a list from `page` on: a short page ends it, and so do two empty pages in a row. */
  function Scan(server: Server, pageSize: nat, list: int, page: nat, empties: nat): Option<seq<Subscriber>>
    decreases MAX_PAGES + 1 - page
  {
    if page > MAX_PAGES then Some([])
    else
      match server(list, page)
      case QueryFailed => None
      case Page(subscribers) =>
        if subscribers == [] then
          if empties + 1 >= 2 then Some([]) else Scan(server, pageSize, list, page + 1, empties + 1)
        else if |subscribers| < pageSize then Some(subscribers)
        else Concat(Some(subscribers), Scan(server, pageSize, list, page + 1, 0))
  }

  function ScanAll(server: Server, pageSize: nat, lists: seq<int>): Option<seq<Subscriber>> {
    if lists == [] then Some([])
    else Concat(Scan(server, pageSize, lists[0], 1, 0), ScanAll(server, pageSize, lists[1..]))
  }

  /** The records of a page that can be read. */
  function RecordsOf(page: Page): seq<Subscriber> {
    if page.Page? then page.subscribers else []
  }

  /** The records of pages `page` to `last`, in order. */
  function Pages(server: Server, list: int, page: nat, last: nat): seq<Subscriber>
    decreases last + 1 - page
  {
    if page > last then [] else RecordsOf(server(list, page)) + Pages(server, list, page + 1, last)
  }

  predicate EmptyPage(page: Page) {
    page.Page? && page.subscribers == []
  }

  /** Reading stops with page `n`: it is short, or the second empty one in a row, or the last that is allowed. */
  predicate StopsAt(server: Server, pageSize: nat, list: int, n: nat) {
    || n == 10_000
    || (server(list, n).Page? && 0 < |server(list, n).subscribers| < pageSize)
    || (n > 1 && EmptyPage(server(list, n - 1)) && EmptyPage(server(list, n)))
  }

  predicate FirstStop(server: Server, pageSize: nat, list: int, n: nat) {
    1 <= n && StopsAt(server, pageSize, list, n) && forall k :: 1 <= k < n ==> !StopsAt(server, pageSize, list, k)
  }

  predicate AnyFailed(server: Server, list: int, page: nat, last: nat) {
    exists k: nat :: page <= k <= last && server(list, k).QueryFailed?
  }

  lemma {:induction false} ScanFrom(server: Server, pageSize: nat, list: int, page: nat, empties: nat, n: nat)
    requires FirstStop(server, pageSize, list, n) && 1 <= page <= n <= MAX_PAGES && empties <= 1
    requires empties == 1 <==> page > 1 && EmptyPage(server(list, page - 1))
    ensures Scan(server, pageSize, list, page, empties) ==
              if AnyFailed(server, list, page, n) then None else Some(Pages(server, list, page, n))
    decreases n - page
  {
    hide AnyFailed;
    FailedFrom(server, list, page, n);
    assert Pages(server, list, page, n) == RecordsOf(server(list, page)) + Pages(server, list, page + 1, n);
    if page == n {
      assert Pages(server, list, page, n) == RecordsOf(server(list, page)) + [] == RecordsOf(server(list, page));
      LastScan(server, pageSize, list, page, empties);
    } else {
      assert !StopsAt(server, pageSize, list, page);
      if server(list, page).Page? {
        var records, next := server(list, page).subscribers, if server(list, page).subscribers == [] then 1 else 0;
        ScanFrom(server, pageSize, list, page + 1, next, n);
        assert [] + Pages(server, list, page + 1, n) == Pages(server, list, page + 1, n);
        assert Scan(server, pageSize, list, page, empties)
            == Concat(Some(records), Scan(server, pageSize, list, page + 1, next));
      }
    }
  }

  lemma FailedFrom(server: Server, list: int, page: nat, n: nat)
    requires page <= n
    ensures AnyFailed(server, list, page, n)
       <==> server(list, page).QueryFailed? || AnyFailed(server, list, page + 1, n)
    ensures !AnyFailed(server, list, n + 1, n)
  {
    if k: nat :| page <= k <= n && server(list, k).QueryFailed? {
      assert k > page ==> page + 1 <= k <= n;
    }
  }

  lemma LastScan(server: Server, pageSize: nat, list: int, page: nat, empties: nat)
    requires StopsAt(server, pageSize, list, page) && 1 <= page <= MAX_PAGES && empties <= 1
    requires empties == 1 <==> page > 1 && EmptyPage(server(list, page - 1))
    ensures Scan(server, pageSize, list, page, empties) ==
              if server(list, page).QueryFailed? then None else Some(RecordsOf(server(list, page)))
  {
    var after := Scan(server, pageSize, list, page + 1, 0);
    assert page == MAX_PAGES ==> after == Some([]) == Scan(server, pageSize, list, page + 1, 1);
    assert server(list, page).Page? ==> server(list, page).subscribers + [] == server(list, page).subscribers;
  }

  lemma {:induction false} StopFrom(server: Server, pageSize: nat, list: int, page: nat) returns (n: nat)
    requires 1 <= page <= 10_000 && forall k :: 1 <= k < page ==> !StopsAt(server, pageSize, list, k)
    ensures page <= n <= 10_000 && FirstStop(server, pageSize, list, n)
    decreases 10_000 - page
  {
    hide StopsAt;
    n := page;
    if !StopsAt(server, pageSize, list, page) {
      LastAllowed(server, pageSize, list);
      n := StopFrom(server, pageSize, list, page + 1);
    }
  }

  lemma LastAllowed(server: Server, pageSize: nat, list: int)
    ensures StopsAt(server, pageSize, list, 10_000)
  {
  }

  /**
   A list is read up to the first page that stops it, all of it: every record of every page up to there, in order.  A
   page among them that cannot be read makes the whole reading fail.
   */
  lemma ScanReads(server: Server, pageSize: nat, list: int) returns (n: nat)
    ensures FirstStop(server, pageSize, list, n) && n <= 10_000
    ensures Scan(server, pageSize, list, 1, 0) ==
              if AnyFailed(server, list, 1, n) then None else Some(Pages(server, list, 1, n))
  {
    hide Scan, StopsAt;
    n := StopFrom(server, pageSize, list, 1);
    ScanFrom(server, pageSize, list, 1, 0, n);
  }

  /** Everything is read from all the lists, and one list that cannot be read makes the whole reading fail. */
  lemma {:induction false} ScanAllReads(server: Server, pageSize: nat, lists: seq<int>, s: Subscriber)
    ensures ScanAll(server, pageSize, lists).Some? <==>
              forall i :: 0 <= i < |lists| ==> Scan(server, pageSize, lists[i], 1, 0).Some?
    ensures ScanAll(server, pageSize, lists).Some? ==>
              (s in ScanAll(server, pageSize, lists).value <==>
               exists i :: 0 <= i < |lists| && s in Scan(server, pageSize, lists[i], 1, 0).value)
  {
    hide Scan;
    if lists != [] {
      ScanAllReads(server, pageSize, lists[1..], s);
      assert forall i :: 1 <= i < |lists| ==> lists[i] == lists[1..][i - 1];
    }
  }

  const ASCENDING: (int, int) -> bool := (a: int, b: int) => a < b

  function PositiveOnce(ids: seq<int>): (r: seq<int>)
    ensures Distinct(r) && forall x :: x in r <==> x in ids && x > 0
  {
    if ids == [] then []
    else
      var n := |ids| - 1;
      var r := PositiveOnce(ids[..n]);
      assert ids == ids[..n] + [ids[n]];
      if ids[n] in r || ids[n] <= 0 then r else r + [ids[n]]
  }

  function SourceLists(ids: seq<int>): seq<int> {
    Sort(PositiveOnce(ids), ASCENDING)
  }

  /** The positive list ids, each once, in ascending order. */
  lemma SourceListsFacts(ids: seq<int>)
    ensures var r := SourceLists(ids);
            && (forall x :: x in r <==> x in ids && x > 0)
            && forall i, j :: 0 <= i < j < |r| ==> r[i] < r[j]
  {
    var once, r := PositiveOnce(ids), SourceLists(ids);
    SortPermutes(once, ASCENDING);
    SortSorts(once, ASCENDING);
    DistinctPermutation(once, r);
    forall i, j | 0 <= i < j < |r| ensures r[i] < r[j] {
      assert !ASCENDING(r[j], r[i]) && r[i] != r[j];
    }
  }

  // ---------------------------------------------------------------------------------
  // Collecting
  // ---------------------------------------------------------------------------------

  datatype Found = Found(seen: map<string, nat>, idToUuid: map<nat, string>, members: seq<Member>)

  /** `members` are exactly the eligible identities of `all`, each once. */
  ghost predicate Collects(all: seq<Subscriber>, members: seq<Member>) {
    && DistinctUuids(members) && DistinctNumbers(members)
    && forall m :: m in members <==> Occurs(all, m)
  }

  /** The two maps mirror the members. */
  ghost predicate Mirrors(f: Found) {
    && (forall m :: m in f.members ==> m.uuid in f.seen && m.id in f.idToUuid)
    && (forall u :: u in f.seen ==> Member(f.seen[u], u) in f.members)
    && (forall n :: n in f.idToUuid ==> Member(n, f.idToUuid[n]) in f.members)
  }

  ghost predicate Tracks(all: seq<Subscriber>, f: Found) {
    Consistent(all) && Collects(all, f.members) && Mirrors(f)
  }

  lemma CollectedAreNamed(all: seq<Subscriber>, f: Found)
    requires Tracks(all, f)
    ensures forall m :: m in f.members ==> m.uuid != ""
  {
    hide Mirrors, DistinctUuids, DistinctNumbers, Agree;
    forall m | m in f.members ensures m.uuid != "" {
      assert Occurs(all, m);
      var i :| 0 <= i < |all| && Lists(all[i], m);
    }
  }

  lemma ConsistentPrefix(a: seq<Subscriber>, b: seq<Subscriber>)
    requires Consistent(a + b)
    ensures Consistent(a)
  {
    assert forall i :: 0 <= i < |a| ==> (a + b)[i] == a[i];
  }

  lemma OccursAppend(all: seq<Subscriber>, s: Subscriber, m: Member)
    ensures Occurs(all + [s], m) <==> Occurs(all, m) || Lists(s, m)
  {
    var more := all + [s];
    assert forall i :: 0 <= i < |all| ==> more[i] == all[i];
    assert more[|all|] == s;
  }

  /** A record that is not eligible changes nothing. */
  lemma SkipRecord(all: seq<Subscriber>, s: Subscriber, f: Found)
    requires Tracks(all, f) && !s.enabled
    ensures Tracks(all + [s], f)
  {
    forall m ensures Occurs(all + [s], m) <==> Occurs(all, m) {
      OccursAppend(all, s, m);
    }
  }

  /** A record whose identity clashes with what was collected breaks consistency. */
  lemma ClashingRecord(all: seq<Subscriber>, s: Subscriber, m: Member)
    requires Occurs(all, m) && s.enabled && HasIdentity(s)
    requires (m.uuid == s.uuid.value) != (m.id == s.id.value)
    ensures !Consistent(all + [s])
  {
    var more := all + [s];
    var i :| 0 <= i < |all| && Lists(all[i], m);
    assert more[i] == all[i] && more[|all|] == s;
    assert !Agree(more[i], more[|all|]);
  }

  lemma UnidentifiedRecord(all: seq<Subscriber>, s: Subscriber)
    requires s.enabled && !HasIdentity(s)
    ensures !Consistent(all + [s])
  {
    assert (all + [s])[|all|] == s;
  }

  /** A record that agrees with every collected member keeps consistency. */
  lemma AgreeingRecord(all: seq<Subscriber>, s: Subscriber, f: Found)
    requires Tracks(all, f) && s.enabled && HasIdentity(s)
    requires forall m :: m in f.members ==> (m.uuid == s.uuid.value <==> m.id == s.id.value)
    ensures Consistent(all + [s])
  {
    var more := all + [s];
    forall i | 0 <= i < |all| ensures Agree(all[i], s) && Agree(s, all[i]) {
      if all[i].enabled {
        var m := Member(all[i].id.value, all[i].uuid.value);
        assert Lists(all[i], m);
        assert m in f.members;
      }
    }
    forall i, j | 0 <= i < |more| && 0 <= j < |more| ensures Agree(more[i], more[j]) {
    }
  }

  lemma KnownRecord(all: seq<Subscriber>, s: Subscriber, f: Found)
    requires Tracks(all, f) && s.enabled && HasIdentity(s) && Member(s.id.value, s.uuid.value) in f.members
    ensures Tracks(all + [s], f)
  {
    hide Consistent, Occurs, Mirrors;
    var known := Member(s.id.value, s.uuid.value);
    forall m | m in f.members ensures m.uuid == s.uuid.value <==> m.id == s.id.value {
      if m.uuid == s.uuid.value && m != known {
        UuidsDiffer(f.members, m, known);
      }
      if m.id == s.id.value {
        SameIdSameMember(f.members, m, known);
      }
    }
    AgreeingRecord(all, s, f);
    forall m ensures Occurs(all + [s], m) <==> Occurs(all, m) {
      OccursAppend(all, s, m);
    }
  }

  lemma MirrorsGrow(f: Found, m: Member)
    requires Mirrors(f) && m.uuid !in f.seen && m.id !in f.idToUuid
    ensures Mirrors(Found(f.seen[m.uuid := m.id], f.idToUuid[m.id := m.uuid], f.members + [m]))
  {
    assert forall x :: x in f.members + [m] <==> x in f.members || x == m;
  }

  lemma CollectsGrow(all: seq<Subscriber>, members: seq<Member>, s: Subscriber, m: Member)
    requires Collects(all, members) && Lists(s, m)
    requires forall x :: x in members ==> x.uuid != m.uuid && x.id != m.id
    ensures Collects(all + [s], members + [m])
  {
    hide Occurs;
    forall i | 0 <= i < |members| ensures members[i].uuid != m.uuid && members[i].id != m.id {
      assert members[i] in members;
    }
    forall x ensures x in members + [m] <==> Occurs(all + [s], x) {
      OccursAppend(all, s, x);
      assert x in members + [m] <==> x in members || x == m;
    }
  }

  lemma NewRecord(all: seq<Subscriber>, s: Subscriber, f: Found)
    requires Tracks(all, f) && s.enabled && HasIdentity(s)
    requires s.uuid.value !in f.seen && s.id.value !in f.idToUuid
    ensures var id, uuid := s.id.value, s.uuid.value;
            Tracks(all + [s], Found(f.seen[uuid := id], f.idToUuid[id := uuid], f.members + [Member(id, uuid)]))
  {
    hide Consistent, Collects;
    var m := Member(s.id.value, s.uuid.value);
    AgreeingRecord(all, s, f);
    MirrorsGrow(f, m);
    CollectsGrow(all, f.members, s, m);
  }

  /** What the maps know about an identity. */
  lemma MapsAreRight(all: seq<Subscriber>, f: Found, id: nat, uuid: string)
    requires Tracks(all, f)
    ensures uuid in f.seen ==> Member(f.seen[uuid], uuid) in f.members && Occurs(all, Member(f.seen[uuid], uuid))
    ensures id in f.idToUuid ==> f.idToUuid[id] in f.seen && Occurs(all, Member(id, f.idToUuid[id]))
  {
    hide Consistent, Occurs, DistinctUuids, DistinctNumbers;
    if id in f.idToUuid {
      assert Member(id, f.idToUuid[id]) in f.members;
    }
  }

  /** One record: skip it, refuse it, or collect it once. */
  method AddSubscriber(ghost all: seq<Subscriber>, f: Found, s: Subscriber) returns (ok: bool, f': Found)
    requires Tracks(all, f)
    ensures ok ==> Tracks(all + [s], f')
    ensures !ok ==> !Consistent(all + [s])
  {
    hide Consistent, Occurs, Tracks;
    f' := f;
    if !s.enabled {
      SkipRecord(all, s, f);
      return true, f';
    }
    if !HasIdentity(s) {
      UnidentifiedRecord(all, s);
      return false, f';
    }
    var id, uuid := s.id.value, s.uuid.value;
    MapsAreRight(all, f, id, uuid);
    if uuid in f.seen && f.seen[uuid] != id {
      ClashingRecord(all, s, Member(f.seen[uuid], uuid));
      return false, f';
    }
    if id in f.idToUuid && f.idToUuid[id] != uuid {
      ClashingRecord(all, s, Member(id, f.idToUuid[id]));
      return false, f';
    }
    if uuid !in f.seen {
      NewRecord(all, s, f);
      f' := Found(f.seen[uuid := id], f.idToUuid[id := uuid], f.members + [Member(id, uuid)]);
    } else {
      KnownRecord(all, s, f);
    }
    ok := true;
  }

  method AddPage(ghost all: seq<Subscriber>, f: Found, page: seq<Subscriber>) returns (ok: bool, f': Found)
    requires Tracks(all, f)
    ensures ok ==> Tracks(all + page, f')
    ensures !ok ==> !Consistent(all + page)
  {
    hide Consistent, Collects, Mirrors;
    f' := f;
    assert all + page[..0] == all;
    for i := 0 to |page|
      invariant Tracks(all + page[..i], f')
    {
      assert all + page[..i] + [page[i]] == all + page[..i + 1];
      ok, f' := AddSubscriber(all + page[..i], f', page[i]);
      if !ok {
        assert all + page == (all + page[..i + 1]) + page[i + 1..];
        Inconsistent(all + page[..i + 1], page[i + 1..]);
        return;
      }
    }
    assert page[..|page|] == page;
    ok := true;
  }

  lemma Inconsistent(a: seq<Subscriber>, b: seq<Subscriber>)
    requires !Consistent(a)
    ensures !Consistent(a + b)
  {
    if Consistent(a + b) {
      ConsistentPrefix(a, b);
    }
  }

  /** The scan of everything succeeds and is consistent. */
  predicate Resolvable(all: Option<seq<Subscriber>>) {
    all.Some? && Consistent(all.value)
  }

  lemma NotResolvable(a: seq<Subscriber>, rest: Option<seq<Subscriber>>)
    requires !Consistent(a)
    ensures !Resolvable(Concat(Some(a), rest))
  {
    if rest.Some? {
      Inconsistent(a, rest.value);
    }
  }

  lemma ConcatAssociative(a: seq<Subscriber>, b: Option<seq<Subscriber>>, c: Option<seq<Subscriber>>)
    ensures Concat(Some(a), Concat(b, c)) == Concat(Concat(Some(a), b), c)
    ensures Concat(Some(a), Some([])) == Some(a) && Concat(Some([]), b) == b
  {
    if b.Some? && c.Some? {
      assert a + (b.value + c.value) == a + b.value + c.value;
    }
    assert a + [] == a;
    assert b.Some? ==> [] + b.value == b.value;
  }

  /** Reads one list page by page. */
  method ReadList(server: Server, pageSize: nat, list: int, ghost all: seq<Subscriber>, f: Found)
    returns (error: Option<ResolveError>, f': Found)
    requires Tracks(all, f)
    ensures error.None? ==>
              && Scan(server, pageSize, list, 1, 0).Some?
              && Tracks(all + Scan(server, pageSize, list, 1, 0).value, f')
    ensures error.Some? ==> !Resolvable(Concat(Some(all), Scan(server, pageSize, list, 1, 0)))
    ensures error != Some(NoSourceLists)
  {
    hide Tracks, Consistent;
    f' := f;
    ghost var whole := Concat(Some(all), Scan(server, pageSize, list, 1, 0));
    ghost var read := all;
    var page, empties := 1, 0;
    while page <= MAX_PAGES
      invariant 1 <= page <= MAX_PAGES + 1
      invariant whole == Concat(Some(read), Scan(server, pageSize, list, page, empties))
      invariant Tracks(read, f')
      decreases MAX_PAGES + 1 - page
    {
      var answer := server(list, page);
      if answer.QueryFailed? {
        return Some(PageFailed), f';
      }
      var subscribers := answer.subscribers;
      if |subscribers| == 0 {
        empties := empties + 1;
        if empties >= 2 {
          break;
        }
        page := page + 1;
        continue;
      }
      empties := 0;
      ghost var rest := if |subscribers| < pageSize then Some([]) else Scan(server, pageSize, list, page + 1, 0);
      ConcatAssociative(read, Some(subscribers), rest);
      ConcatAssociative(subscribers, rest, rest);
      var ok;
      ok, f' := AddPage(read, f', subscribers);
      if !ok {
        NotResolvable(read + subscribers, rest);
        return Some(BadIdentity), f';
      }
      read := read + subscribers;
      if |subscribers| < pageSize {
        ConcatAssociative(read, Some([]), Some([]));
        break;
      }
      page := page + 1;
    }
    ConcatAssociative(read, Some([]), Some([]));
    error := None;
  }

  /**
   Resolves the audience.  It succeeds exactly when some source list is given, every page that the scan reaches can be
   read, and ids and uuids of the eligible records correspond one to one; then it returns each of them once.
   */
  method Resolve(server: Server, pageSize: nat, sources: seq<int>) returns (r: Result<seq<Member>, ResolveError>)
    ensures r == Err(NoSourceLists) <==> forall x :: x in sources ==> x <= 0
    ensures r.Ok? <==>
              (exists x :: x in sources && x > 0) && Resolvable(ScanAll(server, pageSize, SourceLists(sources)))
    ensures r.Ok? ==> Collects(ScanAll(server, pageSize, SourceLists(sources)).value, r.value)
    ensures r.Ok? ==> forall m :: m in r.value ==> m.uuid != ""
  {
    hide Consistent, Scan, Collects, Mirrors, SourceLists;
    var lists := SourceLists(sources);
    SourceListsFacts(sources);
    if lists == [] {
      assert forall x :: x in sources && x > 0 ==> x in lists;
      return Err(NoSourceLists);
    }
    assert lists[0] in sources && lists[0] > 0;
    var found := Found(map[], map[], []);
    ghost var read: seq<Subscriber> := [];
    ghost var whole := ScanAll(server, pageSize, lists);
    NothingRead(found);
    ConcatAssociative([], whole, whole);
    for k := 0 to |lists|
      invariant Tracks(read, found)
      invariant whole == Concat(Some(read), ScanAll(server, pageSize, lists[k..]))
    {
      ghost var scan, rest := Scan(server, pageSize, lists[k], 1, 0), ScanAll(server, pageSize, lists[k + 1..]);
      assert lists[k..][0] == lists[k] && lists[k..][1..] == lists[k + 1..];
      ConcatAssociative(read, scan, rest);
      var error;
      error, found := ReadList(server, pageSize, lists[k], read, found);
      if error.Some? {
        StillNotResolvable(Concat(Some(read), scan), rest);
        return Err(error.value);
      }
      read := read + scan.value;
    }
    ConcatAssociative(read, whole, whole);
    CollectedAreNamed(read, found);
    r := Ok(found.members);
  }

  lemma NothingRead(f: Found)
    requires f == Found(map[], map[], [])
    ensures Tracks([], f)
  {
  }

  lemma StillNotResolvable(a: Option<seq<Subscriber>>, rest: Option<seq<Subscriber>>)
    requires !Resolvable(a)
    ensures !Resolvable(Concat(a, rest))
  {
    if a.Some? {
      NotResolvable(a.value, rest);
    }
  }

  /** No id is in two of the lists. */
  predicate Disjoint(lists: seq<seq<nat>>) {
    forall g, h :: 0 <= g < h < |lists| ==> forall id :: id in lists[g] ==> id !in lists[h]
  }

  datatype SegmentError = Unresolved(cause: ResolveError) | Unassigned(why: ManifestError)

  /**
   Resolve, build the manifest, slice: every eligible subscriber goes to exactly one list, nobody else to any, and the
   lists have the sizes of the manifest.
   */
  method SegmentAudience(sha: Hash, server: Server, pageSize: nat, sources: seq<int>, variants: seq<Variant>,
                         percentage: real, testId: string, seed: string)
    returns (r: Result<(AssignmentManifest, seq<seq<nat>>), SegmentError>, ghost members: seq<Member>)
    ensures r.Ok? <==>
              && (exists x :: x in sources && x > 0) && Resolvable(ScanAll(server, pageSize, SourceLists(sources)))
              && ValidWeights(Weights(variants)) && 0.0 <= percentage <= 100.0
    ensures r.Ok? ==> Collects(ScanAll(server, pageSize, SourceLists(sources)).value, members)
    ensures r.Ok? ==> IsSplit(sha, testId, seed, members, variants, percentage, r.value.0, r.value.1)
    ensures r.Ok? ==> |r.value.1| == |variants| + 1 && forall g :: 0 <= g < |r.value.1| ==>
                        |r.value.1[g]| == r.value.0.groups[g].expectedCount
    ensures r.Ok? ==> forall id :: id in Ids(members) <==> exists g :: 0 <= g < |r.value.1| && id in r.value.1[g]
    ensures r.Ok? ==> Disjoint(r.value.1)
  {
    hide Resolvable, ScanAll, SourceLists, Rank, Checksum, GroupSizes, Share, Less, Occurs, ValidWeights, Cuts, Slice;
    members := [];
    var resolved := Resolve(server, pageSize, sources);
    if resolved.Err? {
      return Err(Unresolved(resolved.error)), members;
    }
    members := resolved.value;
    var snapshot := Snapshot(|resolved.value|, Checksum(sha, Uuids(resolved.value)));
    var manifest := BuildManifest(sha, testId, seed, snapshot, resolved.value, variants, percentage);
    if manifest.Err? {
      return Err(Unassigned(manifest.error)), members;
    }
    var m := manifest.value;
    SizesDoCut(|members|, Weights(variants), percentage, Sizes(m.groups));
    var lists := ListSlices(sha, testId, seed, resolved.value, m);
    forall id ensures id in Ids(members) <==> exists g :: 0 <= g < |lists| && id in lists[g] {
      NoIdInTwoLists(sha, testId, seed, members, Sizes(m.groups), id);
    }
    forall g, h, id | 0 <= g < h < |lists| && id in lists[g] ensures id !in lists[h] {
      NoIdInTwoLists(sha, testId, seed, members, Sizes(m.groups), id);
    }
    r := Ok((m, lists));
  }
}
