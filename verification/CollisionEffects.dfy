/**
 What the operations of the collision guard do, in terms of the participations stored and of who holds a subject when,
 whatever the operations before them were.
 */
module CollisionEffects {
  import opened Prelude
  import opened Collision

  // ---------------------------------------------------------------------------------
  // What a stored participation looks like
  // ---------------------------------------------------------------------------------

  /** A participation that some accepted request may have left. */
  predicate WellFormed(p: Participation) {
    p.test != [] && p.startsAt <= p.endsAt && IsFamilyKey(p.family) && IsSubjectKey(p.subject)
  }

  predicate AllWellFormed(ps: seq<Participation>) {
    forall i :: 0 <= i < |ps| ==> WellFormed(ps[i])
  }

  lemma WellFormedStep(ps: seq<Participation>, op: Op)
    requires AllWellFormed(ps)
    ensures AllWellFormed(Apply(ps, op))
  {
    hide IsFamilyKey, IsSubjectKey, Blocked;
    if op.ReserveOp? && Acceptable(op.req) {
      var req := op.req;
      assert forall p :: p in Kept(ps, req.test) || p in Replaced(ps, req.test) ==> p in ps;
      var admitted := Admitted(ps, req);
      assert forall i :: 0 <= i < |admitted| ==> admitted[i] in admitted && admitted[i] in req.subjects;
    }
  }

  /** Every participation a run leaves is well formed; in particular its window is not empty. */
  lemma {:induction false} StoredWellFormed(ops: seq<Op>)
    ensures AllWellFormed(ApplyAll([], ops))
  {
    if ops != [] {
      StoredWellFormed(ops[..|ops| - 1]);
      WellFormedStep(ApplyAll([], ops[..|ops| - 1]), ops[|ops| - 1]);
    }
  }

  // ---------------------------------------------------------------------------------
  // Reserving
  // ---------------------------------------------------------------------------------

  /** Test `x` holds the subject in the family at some instant of the requested window. */
  ghost predicate HoldsDuring(ps: seq<Participation>, req: Request, subject: string, x: string) {
    exists t :: req.startsAt <= t <= req.endsAt && x in Holders(ps, subject, req.family, t)
  }

  /** The other tests that do. */
  ghost function Others(ps: seq<Participation>, req: Request, subject: string): set<string> {
    set p | p in ps && p.test != req.test && HoldsDuring(ps, req, subject, p.test) :: p.test
  }

  /** They are as many as the request allows, or more. */
  ghost predicate Crowded(ps: seq<Participation>, req: Request, subject: string) {
    |Others(ps, req, subject)| >= req.limit
  }

  lemma RivalHolds(ps: seq<Participation>, req: Request, subject: string, p: Participation)
    requires p in ps && WellFormed(p) && req.startsAt <= req.endsAt
    requires Collide(p, Candidate(req, subject))
    ensures HoldsDuring(ps, req, subject, p.test)
  {
    hide IsFamilyKey, IsSubjectKey;
    OverlapMeansSharedInstant(p, Candidate(req, subject));
    var t :| Covers(p, t) && Covers(Candidate(req, subject), t);
    assert p.test in Holders(ps, subject, req.family, t);
  }

  lemma HolderIsRival(ps: seq<Participation>, req: Request, subject: string, x: string)
    requires HoldsDuring(ps, req, subject, x) && x != req.test
    ensures x in Rivals(ps, req, subject)
  {
    var t :| req.startsAt <= t <= req.endsAt && x in Holders(ps, subject, req.family, t);
    var p :| p in ps && p.subject == subject && p.family == req.family && !p.state.Released? && Covers(p, t)
             && p.test == x;
    assert Collide(p, Candidate(req, subject));
  }

  /** The rivals that the check counts are the other tests that hold the subject during the window. */
  lemma RivalsAreOthers(ps: seq<Participation>, req: Request, subject: string)
    requires AllWellFormed(ps) && req.startsAt <= req.endsAt
    ensures Rivals(ps, req, subject) == Others(ps, req, subject)
  {
    hide HoldsDuring, Collide, WellFormed;
    forall x | x in Rivals(ps, req, subject) ensures x in Others(ps, req, subject) {
      var p :| p in ps && p.test != req.test && Collide(p, Candidate(req, subject)) && p.test == x;
      RivalHolds(ps, req, subject, p);
    }
    forall x | x in Others(ps, req, subject) ensures x in Rivals(ps, req, subject) {
      HolderIsRival(ps, req, subject, x);
    }
  }

  lemma CrowdedIsAtLimit(ps: seq<Participation>, req: Request, s: string)
    requires AllWellFormed(ps) && Acceptable(req)
    ensures AtLimit(ps, req, s) <==> Crowded(ps, req, s)
  {
    hide Rivals, Others, IsFamilyKey, IsSubjectKey;
    RivalsAreOthers(ps, req, s);
  }

  lemma SomeBlocked(ps: seq<Participation>, req: Request)
    requires AllWellFormed(ps) && Acceptable(req)
    ensures Blocked(ps, req, req.subjects) != {} <==> exists s :: s in req.subjects && Crowded(ps, req, s)
  {
    hide AtLimit, Crowded, IsFamilyKey, IsSubjectKey;
    forall s ensures AtLimit(ps, req, s) <==> Crowded(ps, req, s) {
      CrowdedIsAtLimit(ps, req, s);
    }
    if s :| s in req.subjects && Crowded(ps, req, s) {
      assert s in Blocked(ps, req, req.subjects);
    }
  }

  /** A block request is refused exactly when one of its subjects is crowded. */
  lemma RefusedWhenCrowded(ps: seq<Participation>, req: Request)
    requires AllWellFormed(ps) && Acceptable(req)
    ensures Refused(ps, req) <==> req.mode.Block? && exists s :: s in req.subjects && Crowded(ps, req, s)
  {
    hide Crowded, Blocked;
    SomeBlocked(ps, req);
  }

  /** A plain reservation of the requesting test, which the request replaces. */
  predicate Replaceable(p: Participation, req: Request) {
    p.test == req.test && p.state.Reserved?
  }

  /** The reservation that the request asks for one of its subjects. */
  predicate AskedFor(p: Participation, req: Request) {
    && p.subject in req.subjects && p.test == req.test && p.family == req.family && p.state.Reserved?
    && p.startsAt == req.startsAt && p.endsAt == req.endsAt && p.reservedAt == req.reservedAt
    && p.exposedAt.None? && p.releasedAt.None?
  }

  lemma {:induction false} KeptCount(ps: seq<Participation>, test: string, p: Participation)
    ensures multiset(Kept(ps, test))[p] == if p.test == test && p.state.Reserved? then 0 else multiset(ps)[p]
  {
    if ps != [] {
      KeptCount(ps[1..], test, p);
      assert ps == [ps[0]] + ps[1..];
    }
  }

  /** A candidate per listed subject, once. */
  lemma {:induction false} CandidatesCount(req: Request, subjects: seq<string>, p: Participation)
    requires Distinct(subjects)
    ensures multiset(Candidates(req, subjects))[p]
         == if p.subject in subjects && p == Candidate(req, p.subject) then 1 else 0
  {
    if subjects != [] {
      var n := |subjects| - 1;
      CandidatesCount(req, subjects[..n], p);
      assert Candidates(req, subjects) == Candidates(req, subjects[..n]) + [Candidate(req, subjects[n])];
      assert subjects == subjects[..n] + [subjects[n]];
      assert subjects[n] !in subjects[..n];
    }
  }

  lemma AskedForIsCandidate(p: Participation, req: Request)
    ensures AskedFor(p, req) <==> p.subject in req.subjects && p == Candidate(req, p.subject)
  {
  }

  lemma AdmittedSubjects(ps: seq<Participation>, req: Request, s: string)
    ensures Distinct(Admitted(ps, req))
    ensures s in Admitted(ps, req) <==> s in req.subjects && !(req.mode.Exclude? && AtLimit(ps, req, s))
  {
    hide AtLimit;
  }

  /**
   What an accepted request does, whatever happened before.  Block mode is all or nothing: it is refused, and changes
   nothing, exactly when some subject asked for is crowded.  Otherwise, and in the other modes always, the old plain
   reservations of the test go and every subject asked for gets one reservation; exclude mode leaves out the crowded
   ones.  Nothing else is touched.
   */
  lemma ReserveEffect(ops: seq<Op>, req: Request, p: Participation)
    requires Acceptable(req)
    ensures var ps := ApplyAll([], ops);
            var ps' := Apply(ps, ReserveOp(req));
            multiset(ps')[p] ==
              if (req.mode.Block? && exists s :: s in req.subjects && Crowded(ps, req, s)) || !Replaceable(p, req)
              then multiset(ps)[p]
              else if AskedFor(p, req) && !(req.mode.Exclude? && Crowded(ps, req, p.subject)) then 1 else 0
  {
    hide Crowded, AskedFor, Acceptable, Admitted, Refused;
    var ps := ApplyAll([], ops);
    StoredWellFormed(ops);
    RefusedWhenCrowded(ps, req);
    if Refused(ps, req) {
      assert req.mode.Block? by { OnlyBlockRefuses(ps, req); }
      RefusalRestores(ps, req);
    } else {
      var admitted := Admitted(ps, req);
      KeptCount(ps, req.test, p);
      AdmittedSubjects(ps, req, p.subject);
      CandidatesCount(req, admitted, p);
      AskedForIsCandidate(p, req);
      CrowdedIsAtLimit(ps, req, p.subject);
    }
  }

  lemma OnlyBlockRefuses(ps: seq<Participation>, req: Request)
    ensures Refused(ps, req) ==> req.mode.Block?
  {
  }

  /** The number of subjects asked for that some other test holds during the window, and all those tests. */
  ghost predicate Conflicts(ps: seq<Participation>, req: Request, count: nat, tests: set<string>) {
    && count == |set s | s in req.subjects && Others(ps, req, s) != {}|
    && forall x :: x in tests <==> exists s :: s in req.subjects && x in Others(ps, req, s)
  }

  lemma ConflictsFound(ps: seq<Participation>, req: Request)
    requires AllWellFormed(ps) && Acceptable(req)
    ensures Conflicts(ps, req, |Contested(ps, req, req.subjects)|, AllRivals(ps, req, req.subjects))
  {
    hide Rivals, Others, IsFamilyKey, IsSubjectKey;
    forall s ensures Rivals(ps, req, s) == Others(ps, req, s) {
      RivalsAreOthers(ps, req, s);
    }
    assert Contested(ps, req, req.subjects) == set s | s in req.subjects && Others(ps, req, s) != {};
  }

  /** The rows a request that goes through adds: each once, and those asked for. */
  lemma AdmittedRows(ps: seq<Participation>, req: Request)
    requires AllWellFormed(ps) && Acceptable(req)
    ensures var rows := Candidates(req, Admitted(ps, req));
            && Distinct(rows)
            && forall p :: p in rows <==> AskedFor(p, req) && !(req.mode.Exclude? && Crowded(ps, req, p.subject))
  {
    hide AtLimit, Crowded, IsFamilyKey, IsSubjectKey, Admitted;
    var admitted := Admitted(ps, req);
    AdmittedSubjects(ps, req, "");
    forall p ensures p in Candidates(req, admitted) <==>
                       AskedFor(p, req) && !(req.mode.Exclude? && Crowded(ps, req, p.subject)) {
      CandidatesCount(req, admitted, p);
      AskedForIsCandidate(p, req);
      AdmittedSubjects(ps, req, p.subject);
      CrowdedIsAtLimit(ps, req, p.subject);
    }
  }

  // ---------------------------------------------------------------------------------
  // Exposing and releasing
  // ---------------------------------------------------------------------------------

  lemma SameHolders(a: seq<Participation>, b: seq<Participation>, subject: string, family: string, t: Time)
    requires |a| == |b|
    requires forall i :: 0 <= i < |a| ==>
               && a[i].test == b[i].test && a[i].subject == b[i].subject && a[i].family == b[i].family
               && a[i].startsAt == b[i].startsAt && a[i].endsAt == b[i].endsAt
               && (Covers(a[i], t) ==> (a[i].state.Released? <==> b[i].state.Released?))
    ensures Holders(a, subject, family, t) == Holders(b, subject, family, t)
  {
    HoldersFollow(a, b, subject, family, t);
    HoldersFollow(b, a, subject, family, t);
  }

  lemma HoldersFollow(a: seq<Participation>, b: seq<Participation>, subject: string, family: string, t: Time)
    requires |a| == |b|
    requires forall i :: 0 <= i < |a| ==>
               && a[i].test == b[i].test && a[i].subject == b[i].subject && a[i].family == b[i].family
               && a[i].startsAt == b[i].startsAt && a[i].endsAt == b[i].endsAt
               && (Covers(a[i], t) && !a[i].state.Released? ==> !b[i].state.Released?)
    ensures Holders(a, subject, family, t) <= Holders(b, subject, family, t)
  {
    forall x | x in Holders(a, subject, family, t) ensures x in Holders(b, subject, family, t) {
      var p :| p in a && p.subject == subject && p.family == family && !p.state.Released? && Covers(p, t)
               && p.test == x;
      var i :| 0 <= i < |a| && a[i] == p;
      assert b[i] in b && Covers(b[i], t);
    }
  }

  /**
   Exposing a test leaves it no plain reservation, so a later request of the test replaces nothing, and changes neither
   who holds what nor any other test's participations.
   */
  lemma ExposeEffect(ps: seq<Participation>, test: string, at: Time, subject: string, family: string, t: Time)
    ensures var ps' := Apply(ps, ExposeOp(test, at));
            && |ps'| == |ps| && Replaced(ps', test) == []
            && Holders(ps', subject, family, t) == Holders(ps, subject, family, t)
            && forall i :: 0 <= i < |ps| ==>
                 && (ps'[i] == ps[i] || (ps[i].test == test && ps'[i].exposedAt == Some(at)))
                 && (ps'[i].state.Exposed? <==> ps[i].state.Exposed? || (ps[i].test == test && ps[i].state.Reserved?))
  {
    hide Holders;
    var ps' := Apply(ps, ExposeOp(test, at));
    SameHolders(ps', ps, subject, family, t);
    if Replaced(ps', test) != [] {
      assert Replaced(ps', test)[0] in Replaced(ps', test);
    }
  }

  /** Releasing passed windows leaves no active one that ended, and changes nobody's hold from then on. */
  lemma ReleasePassedEffect(ps: seq<Participation>, now: Time, subject: string, family: string, t: Time)
    ensures var ps' := Apply(ps, ReleasePassedOp(now));
            && |ps'| == |ps|
            && (forall i :: 0 <= i < |ps| ==>
                  && (ps'[i] == ps[i] || (ps[i].endsAt < now && ps'[i].releasedAt == Some(now)))
                  && (ps'[i].state.Released? <==> ps[i].state.Released? || ps[i].endsAt < now))
            && (t >= now ==> Holders(ps', subject, family, t) == Holders(ps, subject, family, t))
  {
    hide Holders;
    if t >= now {
      SameHolders(Apply(ps, ReleasePassedOp(now)), ps, subject, family, t);
    }
  }

  /**
   Cancelling a test takes away every hold of the test that is not an exposure still inside its window, and nothing of
   any other test.
   */
  lemma ReleaseTestEffect(ps: seq<Participation>, test: string, at: Time, subject: string, family: string, t: Time)
    ensures var ps' := Apply(ps, ReleaseTestOp(test, at));
            && |ps'| == |ps|
            && (forall i :: 0 <= i < |ps| ==>
                  && (ps'[i] == ps[i] || (ps[i].test == test && ps'[i].releasedAt == Some(at)))
                  && (ps'[i].test == test && !ps'[i].state.Released? ==> ps'[i].state.Exposed? && ps'[i].endsAt >= at)
                  && (ps[i].test == test && ps[i].state.Exposed? && ps[i].endsAt >= at ==> ps'[i] == ps[i]))
            && Holders(ps', subject, family, t) - {test} == Holders(ps, subject, family, t) - {test}
  {
    var ps' := Apply(ps, ReleaseTestOp(test, at));
    OtherHolders(ps', ps, test, subject, family, t);
    OtherHolders(ps, ps', test, subject, family, t);
  }

  lemma OtherHolders(a: seq<Participation>, b: seq<Participation>, test: string, subject: string, family: string,
                     t: Time)
    requires |a| == |b| && forall i :: 0 <= i < |a| ==> a[i] == b[i] || a[i].test == test
    ensures Holders(a, subject, family, t) - {test} <= Holders(b, subject, family, t)
  {
    forall x | x in Holders(a, subject, family, t) && x != test ensures x in Holders(b, subject, family, t) {
      var p :| p in a && p.subject == subject && p.family == family && !p.state.Released? && Covers(p, t)
               && p.test == x;
      var i :| 0 <= i < |a| && a[i] == p;
      assert b[i] in b;
    }
  }
}
