/** The in-memory participation store: one list, rewritten by serialized operations, checked through an index. */
module CollisionStore {
  import opened Prelude
  import opened Collision
  import opened CollisionEffects

  datatype Outcome =
    | Misconfigured
    | Conflict(count: nat, tests: set<string>)
    | Granted(reserved: seq<Participation>, conflictCount: nat, conflictTests: set<string>, warning: bool)

  /** Two pairs may share a key; the collision test rechecks subject and family, so that does no harm. */
  function IndexKey(subject: string, family: string): string {
    subject + ":" + family
  }

  predicate Indexed(p: Participation, test: string, key: string) {
    p.test != test && !p.state.Released? && IndexKey(p.subject, p.family) == key
  }

  /** Groups the active participations of other tests by subject and family. */
  method BuildIndex(ps: seq<Participation>, test: string) returns (index: map<string, seq<Participation>>)
    ensures forall key, p :: key in index && p in index[key] ==> p in ps && Indexed(p, test, key)
    ensures forall key, p :: p in ps && Indexed(p, test, key) ==> key in index && p in index[key]
  {
    index := map[];
    for i := 0 to |ps|
      invariant forall key, p :: key in index && p in index[key] ==> p in ps[..i] && Indexed(p, test, key)
      invariant forall key, p :: p in ps[..i] && Indexed(p, test, key) ==> key in index && p in index[key]
    {
      var p := ps[i];
      assert ps[..i + 1] == ps[..i] + [p];
      if p.test == test || p.state.Released? {
        continue;
      }
      var key := IndexKey(p.subject, p.family);
      if key in index {
        index := index[key := index[key] + [p]];
      } else {
        index := index[key := [p]];
      }
    }
    assert ps[..|ps|] == ps;
  }

  /** Tests in an index bucket that collide with the candidate. */
  function RivalsIn(bucket: seq<Participation>, req: Request, subject: string): set<string> {
    set p | p in bucket && Collide(p, Candidate(req, subject)) :: p.test
  }

  /** The index finds exactly the rivals of a candidate. */
  lemma IndexFindsRivals(ps: seq<Participation>, req: Request, subject: string, index: map<string, seq<Participation>>)
    requires forall key, p :: key in index && p in index[key] ==> p in ps && Indexed(p, req.test, key)
    requires forall key, p :: p in ps && Indexed(p, req.test, key) ==> key in index && p in index[key]
    ensures var key := IndexKey(subject, req.family);
            Rivals(ps, req, subject) == if key in index then RivalsIn(index[key], req, subject) else {}
  {
    var key := IndexKey(subject, req.family);
    var found := if key in index then RivalsIn(index[key], req, subject) else {};
    forall t | t in Rivals(ps, req, subject) ensures t in found {
      var p :| p in ps && p.test != req.test && Collide(p, Candidate(req, subject)) && p.test == t;
      assert Indexed(p, req.test, key);
    }
    forall t | t in found ensures t in Rivals(ps, req, subject) {
      var p :| p in index[key] && Collide(p, Candidate(req, subject)) && p.test == t;
      assert Indexed(p, req.test, key);
    }
  }

  /** The check loop over deduplicated subjects. */
  method CheckSubjects(ps: seq<Participation>, req: Request, subjects: seq<string>)
    returns (count: nat, tests: set<string>, blocked: set<string>)
    requires req.limit >= 1 && Distinct(subjects)
    ensures count == |Contested(ps, req, subjects)|
    ensures tests == AllRivals(ps, req, subjects)
    ensures blocked == Blocked(ps, req, subjects)
  {
    hide Rivals, RivalsIn, Contested, AllRivals, Blocked, Indexed;
    var index := BuildIndex(ps, req.test);
    NothingChecked(ps, req, subjects);
    count, tests, blocked := 0, {}, {};
    for i := 0 to |subjects|
      invariant count == |Contested(ps, req, subjects[..i])|
      invariant tests == AllRivals(ps, req, subjects[..i])
      invariant blocked == Blocked(ps, req, subjects[..i])
    {
      var s := subjects[i];
      var key := IndexKey(s, req.family);
      IndexFindsRivals(ps, req, s, index);
      CheckExtends(ps, req, subjects, i);
      if key in index {
        var rivals := RivalsIn(index[key], req, s);
        if rivals != {} {
          count := count + 1;
          tests := tests + rivals;
          if |rivals| >= req.limit {
            blocked := blocked + {s};
          }
        }
      }
    }
    assert subjects[..|subjects|] == subjects;
  }

  lemma NothingChecked(ps: seq<Participation>, req: Request, subjects: seq<string>)
    ensures Contested(ps, req, subjects[..0]) == {} == AllRivals(ps, req, subjects[..0])
    ensures Blocked(ps, req, subjects[..0]) == {}
  {
  }

  lemma CheckExtends(ps: seq<Participation>, req: Request, subjects: seq<string>, i: nat)
    requires i < |subjects| && Distinct(subjects)
    ensures |Contested(ps, req, subjects[..i + 1])|
         == |Contested(ps, req, subjects[..i])| + if Rivals(ps, req, subjects[i]) != {} then 1 else 0
    ensures AllRivals(ps, req, subjects[..i + 1]) == AllRivals(ps, req, subjects[..i]) + Rivals(ps, req, subjects[i])
    ensures Blocked(ps, req, subjects[..i + 1])
         == Blocked(ps, req, subjects[..i]) + if AtLimit(ps, req, subjects[i]) then {subjects[i]} else {}
  {
    hide Rivals, AtLimit, Contested, Blocked, AllRivals;
    assert subjects[..i + 1] == subjects[..i] + [subjects[i]];
    assert subjects[i] !in subjects[..i];
    ContestedExtends(ps, req, subjects[..i], subjects[i]);
    RivalsExtend(ps, req, subjects[..i], subjects[i]);
    BlockedExtends(ps, req, subjects[..i], subjects[i]);
  }

  lemma ContestedExtends(ps: seq<Participation>, req: Request, checked: seq<string>, s: string)
    requires s !in checked
    ensures |Contested(ps, req, checked + [s])|
         == |Contested(ps, req, checked)| + if Rivals(ps, req, s) != {} then 1 else 0
  {
    hide Rivals;
    assert Contested(ps, req, checked + [s])
        == Contested(ps, req, checked) + if Rivals(ps, req, s) != {} then {s} else {};
    assert s !in Contested(ps, req, checked);
  }

  lemma RivalsExtend(ps: seq<Participation>, req: Request, checked: seq<string>, s: string)
    ensures AllRivals(ps, req, checked + [s]) == AllRivals(ps, req, checked) + Rivals(ps, req, s)
  {
    hide Rivals;
    assert forall x :: x in checked + [s] <==> x in checked || x == s;
  }

  lemma BlockedExtends(ps: seq<Participation>, req: Request, checked: seq<string>, s: string)
    ensures Blocked(ps, req, checked + [s]) == Blocked(ps, req, checked) + if AtLimit(ps, req, s) then {s} else {}
  {
    hide AtLimit;
    assert forall x :: x in checked + [s] <==> x in checked || x == s;
  }

  lemma KeptSameRivals(ps: seq<Participation>, req: Request)
    ensures forall s :: Rivals(Kept(ps, req.test), req, s) == Rivals(ps, req, s)
    ensures Blocked(Kept(ps, req.test), req, Dedup(req.subjects)) == Blocked(ps, req, req.subjects)
    ensures Contested(Kept(ps, req.test), req, Dedup(req.subjects)) == Contested(ps, req, req.subjects)
    ensures AllRivals(Kept(ps, req.test), req, Dedup(req.subjects)) == AllRivals(ps, req, req.subjects)
  {
    forall s ensures Rivals(Kept(ps, req.test), req, s) == Rivals(ps, req, s) {
      assert forall p :: p in ps && p.test != req.test <==> p in Kept(ps, req.test) && p.test != req.test;
    }
  }

  /** The positions among the first `n` that a passed window releases. */
  function PassedAt(ps: seq<Participation>, now: Time, n: nat): set<nat>
    requires n <= |ps|
  {
    set k: nat | k < n && WindowPassed(ps[k], now)
  }

  /** The positions among the first `n` that cancelling a test releases. */
  function CancelledAt(ps: seq<Participation>, test: string, at: Time, n: nat): set<nat>
    requires n <= |ps|
  {
    set k: nat | k < n && Cancellable(ps[k], test, at)
  }

  lemma NothingPassed(ps: seq<Participation>, now: Time)
    ensures PassedAt(ps, now, 0) == {}
  {
  }

  lemma PassedAtExtends(ps: seq<Participation>, now: Time, n: nat)
    requires n < |ps|
    ensures |PassedAt(ps, now, n + 1)| == |PassedAt(ps, now, n)| + if WindowPassed(ps[n], now) then 1 else 0
  {
    assert PassedAt(ps, now, n + 1) == PassedAt(ps, now, n) + if WindowPassed(ps[n], now) then {n} else {};
  }

  lemma NothingCancelled(ps: seq<Participation>, test: string, at: Time)
    ensures CancelledAt(ps, test, at, 0) == {}
  {
  }

  lemma CancelledAtExtends(ps: seq<Participation>, test: string, at: Time, n: nat)
    requires n < |ps|
    ensures |CancelledAt(ps, test, at, n + 1)|
         == |CancelledAt(ps, test, at, n)| + if Cancellable(ps[n], test, at) then 1 else 0
  {
    assert CancelledAt(ps, test, at, n + 1)
        == CancelledAt(ps, test, at, n) + if Cancellable(ps[n], test, at) then {n} else {};
  }

  lemma Extends(ops: seq<Op>, op: Op)
    ensures ApplyAll([], ops + [op]) == Apply(ApplyAll([], ops), op)
  {
    assert (ops + [op])[..|ops|] == ops;
  }

  lemma {:induction false} ApplyAllSplits(ps: seq<Participation>, a: seq<Op>, b: seq<Op>)
    ensures ApplyAll(ps, a + b) == ApplyAll(ApplyAll(ps, a), b)
  {
    if b == [] {
      assert a + b == a;
    } else {
      var n := |b| - 1;
      ApplyAllSplits(ps, a, b[..n]);
      assert (a + b)[..|a| + n] == a + b[..n];
    }
  }

  /** A release at a time past `end`. */
  predicate ReleasesAfter(op: Op, end: Time) {
    (op.ReleasePassedOp? || op.ReleaseTestOp?) && op.at > end
  }

  /**
   What a caller learns.  Block mode is all or nothing: it is refused, and changes nothing, exactly when some subject is
   held by as many others as the limit.  A granted request has its reservation for every subject, except that exclude
   mode leaves out the crowded ones; warn mode says that there are some.
   */
  ghost predicate Answers(ps: seq<Participation>, req: Request, ps': seq<Participation>, r: Outcome) {
    && (r.Misconfigured? <==> !Acceptable(req))
    && (r.Conflict? <==> Acceptable(req) && req.mode.Block? && exists s :: s in req.subjects && Crowded(ps, req, s))
    && (r.Conflict? ==> multiset(ps') == multiset(ps) && Conflicts(ps, req, r.count, r.tests))
    && (r.Granted? ==>
          && Distinct(r.reserved) && (forall p :: p in r.reserved ==> p in ps')
          && (forall p :: p in r.reserved <==> AskedFor(p, req) && !(req.mode.Exclude? && Crowded(ps, req, p.subject)))
          && Conflicts(ps, req, r.conflictCount, r.conflictTests)
          && (r.warning <==> req.mode.Warn? && exists s :: s in req.subjects && Crowded(ps, req, s)))
  }

  /** The same in the terms of the computation. */
  ghost predicate Computed(ps: seq<Participation>, req: Request, r: Outcome) {
    if !Acceptable(req) then r.Misconfigured?
    else
      var count, tests := |Contested(ps, req, req.subjects)|, AllRivals(ps, req, req.subjects);
      if Refused(ps, req) then r == Conflict(count, tests)
      else r == Granted(Candidates(req, Admitted(ps, req)), count, tests,
                        req.mode.Warn? && Blocked(ps, req, req.subjects) != {})
  }

  lemma ComputedAnswers(ps: seq<Participation>, req: Request, r: Outcome)
    requires AllWellFormed(ps) && Computed(ps, req, r)
    ensures Answers(ps, req, Reserve(ps, req), r)
  {
    hide Crowded, AskedFor, Acceptable, Conflicts, AllWellFormed, Refused, Admitted, Blocked, Contested, AllRivals,
         Distinct;
    if Acceptable(req) {
      RefusedWhenCrowded(ps, req);
      ConflictsFound(ps, req);
      if Refused(ps, req) {
        RefusalRestores(ps, req);
      } else {
        SomeBlocked(ps, req);
        AdmittedRows(ps, req);
      }
    }
  }

  lemma AcceptedLimit(req: Request)
    requires Acceptable(req)
    ensures req.limit >= 1
  {
  }

  class ParticipationStore {
    var participations: seq<Participation>

    /** Every operation so far. */
    ghost var ops: seq<Op>

    /** The participations are what those operations make of an empty store. */
    ghost predicate Valid()
      reads this
    {
      participations == ApplyAll([], ops)
    }

    constructor ()
      ensures Valid() && participations == [] && ops == []
    {
      participations, ops := [], [];
    }

    /** So the store itself keeps the bound, as long as every request made to it blocks or excludes at most at `k`. */
    lemma StoreBound(k: nat)
      requires Valid() && forall i :: 0 <= i < |ops| ==> Disciplined(ops[i], k)
      ensures Bounded(participations, k)
    {
      ConcurrencyBound(ops, k);
    }

    /** A participation that was exposed or released stays through whatever the store does before its window ends. */
    twostate lemma StoreKeepsHistory(p: Participation)
      requires old(Valid()) && Valid() && old(ops) <= ops && p in old(participations)
      requires p.state.Released? || p.state.Exposed?
      requires p.state.Exposed? ==> forall i :: |old(ops)| <= i < |ops| ==> !ReleasesAfter(ops[i], p.endsAt)
      ensures p in participations
    {
      ApplyAllSplits([], old(ops), ops[|old(ops)|..]);
      assert old(ops) + ops[|old(ops)|..] == ops;
      HistoryKept(old(participations), ops[|old(ops)|..], p);
    }

    /** One request, checked and written in one step. */
    method CheckAndReserve(req: Request) returns (r: Outcome)
      requires Valid()
      modifies this
      ensures Valid() && ops == old(ops) + [ReserveOp(req)]
      ensures participations == Reserve(old(participations), req)
      ensures Answers(old(participations), req, participations, r)
    {
      hide Answers, Acceptable, AllRivals, Contested, Blocked, AtLimit, Rivals, Candidates;
      ghost var before := participations;
      StoredWellFormed(ops);
      Extends(ops, ReserveOp(req));
      ops := ops + [ReserveOp(req)];
      if !Acceptable(req) {
        r := Misconfigured;
      } else {
        assert req.limit >= 1 by { AcceptedLimit(req); }
        KeptSameRivals(participations, req);
        var saved := Replaced(participations, req.test);
        participations := Kept(participations, req.test);
        var subjects := Dedup(req.subjects);
        var count, tests, blocked := CheckSubjects(participations, req, subjects);
        if req.mode.Block? && blocked != {} {
          participations := participations + saved;
          r := Conflict(count, tests);
        } else {
          var admitted := if req.mode.Exclude? then Without(subjects, blocked) else subjects;
          var reserved := Candidates(req, admitted);
          participations := participations + reserved;
          r := Granted(reserved, count, tests, req.mode.Warn? && blocked != {});
        }
      }
      ComputedAnswers(before, req, r);
    }

    method MarkExposed(test: string, at: Time)
      requires Valid()
      modifies this
      ensures Valid() && ops == old(ops) + [ExposeOp(test, at)]
      ensures participations == Apply(old(participations), ExposeOp(test, at))
    {
      ghost var before := participations;
      for i := 0 to |participations|
        invariant |participations| == |before| && ops == old(ops)
        invariant forall k :: 0 <= k < i ==> participations[k] == ExposedRow(before[k], test, at)
        invariant forall k :: i <= k < |before| ==> participations[k] == before[k]
      {
        var p := participations[i];
        if p.test == test && p.state.Reserved? {
          participations := participations[i := p.(state := Exposed, exposedAt := Some(at))];
        }
      }
      assert participations == Apply(before, ExposeOp(test, at));
      Extends(ops, ExposeOp(test, at));
      ops := ops + [ExposeOp(test, at)];
    }

    method ReleaseEligible(now: Time) returns (count: nat)
      requires Valid()
      modifies this
      ensures Valid() && ops == old(ops) + [ReleasePassedOp(now)]
      ensures participations == Apply(old(participations), ReleasePassedOp(now))
      ensures count == |PassedAt(old(participations), now, |old(participations)|)|
    {
      hide PassedAt;
      ghost var before := participations;
      count := 0;
      assert |PassedAt(before, now, 0)| == 0 by { NothingPassed(before, now); }
      for i := 0 to |participations|
        invariant |participations| == |before| && ops == old(ops)
        invariant forall k :: 0 <= k < i ==>
                    participations[k] == ReleasedRow(before[k], WindowPassed(before[k], now), now)
        invariant forall k :: i <= k < |before| ==> participations[k] == before[k]
        invariant count == |PassedAt(before, now, i)|
      {
        PassedAtExtends(before, now, i);
        var p := participations[i];
        if !p.state.Released? {
          if p.endsAt < now {
            participations := participations[i := p.(state := Released, releasedAt := Some(now))];
            count := count + 1;
          }
        }
      }
      assert participations == Apply(before, ReleasePassedOp(now));
      Extends(ops, ReleasePassedOp(now));
      ops := ops + [ReleasePassedOp(now)];
    }

    method ReleaseByTest(test: string, at: Time) returns (count: nat)
      requires Valid()
      modifies this
      ensures Valid() && ops == old(ops) + [ReleaseTestOp(test, at)]
      ensures participations == Apply(old(participations), ReleaseTestOp(test, at))
      ensures count == |CancelledAt(old(participations), test, at, |old(participations)|)|
    {
      ghost var before := participations;
      count := 0;
      hide CancelledAt;
      assert |CancelledAt(before, test, at, 0)| == 0 by { NothingCancelled(before, test, at); }
      for i := 0 to |participations|
        invariant |participations| == |before| && ops == old(ops)
        invariant forall k :: 0 <= k < i ==>
                    participations[k] == ReleasedRow(before[k], Cancellable(before[k], test, at), at)
        invariant forall k :: i <= k < |before| ==> participations[k] == before[k]
        invariant count == |CancelledAt(before, test, at, i)|
      {
        CancelledAtExtends(before, test, at, i);
        var p := participations[i];
        if p.test == test && !p.state.Released? {
          if p.state.Exposed? && p.endsAt >= at {
            continue;
          }
          participations := participations[i := p.(state := Released, releasedAt := Some(at))];
          count := count + 1;
        }
      }
      assert participations == Apply(before, ReleaseTestOp(test, at));
      Extends(ops, ReleaseTestOp(test, at));
      ops := ops + [ReleaseTestOp(test, at)];
    }
  }
}
