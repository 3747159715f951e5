/**
 The experiment collision guard: reservations of subjects by tests over closed time windows, checked and
 written in one serialized step, and the bound they keep over every run.
 */
module Collision {
  import opened Prelude

  type Time = int

  datatype HoldState = Reserved | Exposed | Released

  datatype Participation = Participation(
    test: string, subject: string, family: string, state: HoldState, startsAt: Time, endsAt: Time, reservedAt: Time,
    exposedAt: Option<Time>, releasedAt: Option<Time>)

  datatype Mode = Block | Exclude | Warn

  datatype Request = Request(
    test: string, family: string, startsAt: Time, endsAt: Time, subjects: seq<string>, mode: Mode, limit: int,
    reservedAt: Time)

  /** Closed intervals meet. */
  predicate Overlap(aStart: Time, aEnd: Time, bStart: Time, bEnd: Time) {
    aStart <= bEnd && bStart <= aEnd
  }

  predicate Collide(a: Participation, b: Participation) {
    && a.subject == b.subject && a.family == b.family
    && !a.state.Released? && !b.state.Released?
    && Overlap(a.startsAt, a.endsAt, b.startsAt, b.endsAt)
  }

  predicate Covers(p: Participation, t: Time) {
    p.startsAt <= t <= p.endsAt
  }

  /** Two closed windows overlap exactly when some instant lies in both. */
  lemma OverlapMeansSharedInstant(a: Participation, b: Participation)
    requires a.startsAt <= a.endsAt && b.startsAt <= b.endsAt
    ensures Overlap(a.startsAt, a.endsAt, b.startsAt, b.endsAt) <==>
            exists t :: Covers(a, t) && Covers(b, t)
  {
    var t := if a.startsAt < b.startsAt then b.startsAt else a.startsAt;
    if Overlap(a.startsAt, a.endsAt, b.startsAt, b.endsAt) {
      assert Covers(a, t) && Covers(b, t);
    }
  }

  // ---------------------------------------------------------------------------------
  // Input checks
  // ---------------------------------------------------------------------------------

  predicate IsAlnum(c: char) { 'a' <= c <= 'z' || '0' <= c <= '9' }

  predicate IsSeparator(c: char) { c == '.' || c == '_' || c == '-' }

  /** Lowercase alphanumeric segments joined by single separators. */
  predicate IsFamilyKey(f: string) {
    && f != [] && IsAlnum(f[0]) && IsAlnum(f[|f| - 1])
    && (forall i :: 0 <= i < |f| ==> IsAlnum(f[i]) || IsSeparator(f[i]))
    && (forall i :: 0 <= i < |f| - 1 && IsSeparator(f[i]) ==> IsAlnum(f[i + 1]))
  }

  /** A SHA-256 digest in lowercase hex. */
  predicate IsSubjectKey(s: string) {
    |s| == 64 && forall i :: 0 <= i < |s| ==> '0' <= s[i] <= '9' || 'a' <= s[i] <= 'f'
  }

  predicate Acceptable(req: Request) {
    && req.test != [] && req.limit >= 1 && IsFamilyKey(req.family)
    && req.startsAt <= req.endsAt
    && req.subjects != [] && (forall s :: s in req.subjects ==> IsSubjectKey(s))
  }

  // ---------------------------------------------------------------------------------
  // Specification of a reservation
  // ---------------------------------------------------------------------------------

  /** Not a plain reservation of `test` (those a retry replaces). */
  function Kept(ps: seq<Participation>, test: string): (r: seq<Participation>)
    ensures forall p :: p in r <==> p in ps && !(p.test == test && p.state.Reserved?)
  {
    if ps == [] then []
    else if ps[0].test == test && ps[0].state.Reserved? then Kept(ps[1..], test) else [ps[0]] + Kept(ps[1..], test)
  }

  function Replaced(ps: seq<Participation>, test: string): (r: seq<Participation>)
    ensures forall p :: p in r <==> p in ps && p.test == test && p.state.Reserved?
  {
    if ps == [] then []
    else if ps[0].test == test && ps[0].state.Reserved? then [ps[0]] + Replaced(ps[1..], test)
    else Replaced(ps[1..], test)
  }

  /** The distinct values, in order of first occurrence. */
  function Dedup(s: seq<string>): (r: seq<string>)
    ensures forall x :: x in r <==> x in s
    ensures Distinct(r)
  {
    if s == [] then []
    else
      var before := Dedup(s[..|s| - 1]);
      var last := s[|s| - 1];
      assert s == s[..|s| - 1] + [last];
      if last in before then before else before + [last]
  }

  function Candidate(req: Request, subject: string): Participation {
    Participation(req.test, subject, req.family, Reserved, req.startsAt, req.endsAt, req.reservedAt, None, None)
  }

  /** Other tests that hold the subject in the family at some instant of the requested window. */
  function Rivals(ps: seq<Participation>, req: Request, subject: string): set<string> {
    set p | p in ps && p.test != req.test && Collide(p, Candidate(req, subject)) :: p.test
  }

  predicate AtLimit(ps: seq<Participation>, req: Request, subject: string) {
    |Rivals(ps, req, subject)| >= req.limit
  }

  /** The subjects of a list that already have as many rivals as the limit allows. */
  function Blocked(ps: seq<Participation>, req: Request, subjects: seq<string>): set<string> {
    set s | s in subjects && AtLimit(ps, req, s)
  }

  function Contested(ps: seq<Participation>, req: Request, subjects: seq<string>): set<string> {
    set s | s in subjects && Rivals(ps, req, s) != {}
  }

  function AllRivals(ps: seq<Participation>, req: Request, subjects: seq<string>): set<string> {
    set s, t | s in subjects && t in Rivals(ps, req, s) :: t
  }

  function Candidates(req: Request, subjects: seq<string>): (r: seq<Participation>)
    ensures |r| == |subjects| && forall i :: 0 <= i < |r| ==> r[i] == Candidate(req, subjects[i])
  {
    seq(|subjects|, i requires 0 <= i < |subjects| => Candidate(req, subjects[i]))
  }

  /** The subjects a request reserves when it goes through. */
  function Admitted(ps: seq<Participation>, req: Request): seq<string> {
    if req.mode.Exclude? then Without(Dedup(req.subjects), Blocked(ps, req, req.subjects)) else Dedup(req.subjects)
  }

  predicate Refused(ps: seq<Participation>, req: Request) {
    req.mode.Block? && Blocked(ps, req, req.subjects) != {}
  }

  /** The store after a request; a refused one puts the replaced reservations back. */
  function Reserve(ps: seq<Participation>, req: Request): seq<Participation> {
    if !Acceptable(req) then ps
    else if Refused(ps, req) then Kept(ps, req.test) + Replaced(ps, req.test)
    else Kept(ps, req.test) + Candidates(req, Admitted(ps, req))
  }

  // ---------------------------------------------------------------------------------
  // The other operations
  // ---------------------------------------------------------------------------------

  function ExposedRow(p: Participation, test: string, at: Time): Participation {
    if p.test == test && p.state.Reserved? then p.(state := Exposed, exposedAt := Some(at)) else p
  }

  predicate WindowPassed(p: Participation, now: Time) {
    !p.state.Released? && p.endsAt < now
  }

  /** An exposed participation of a cancelled test stays until its window has ended. */
  predicate Cancellable(p: Participation, test: string, at: Time) {
    p.test == test && !p.state.Released? && !(p.state.Exposed? && p.endsAt >= at)
  }

  function ReleasedRow(p: Participation, release: bool, at: Time): Participation {
    if release then p.(state := Released, releasedAt := Some(at)) else p
  }

  datatype Op =
    | ReserveOp(req: Request)
    | ExposeOp(test: string, at: Time)
    | ReleasePassedOp(at: Time)
    | ReleaseTestOp(test: string, at: Time)

  function Apply(ps: seq<Participation>, op: Op): seq<Participation> {
    match op
    case ReserveOp(req) => Reserve(ps, req)
    case ExposeOp(test, at) => seq(|ps|, i requires 0 <= i < |ps| => ExposedRow(ps[i], test, at))
    case ReleasePassedOp(at) => seq(|ps|, i requires 0 <= i < |ps| => ReleasedRow(ps[i], WindowPassed(ps[i], at), at))
    case ReleaseTestOp(test, at) =>
      seq(|ps|, i requires 0 <= i < |ps| => ReleasedRow(ps[i], Cancellable(ps[i], test, at), at))
  }

  function ApplyAll(ps: seq<Participation>, ops: seq<Op>): seq<Participation> {
    if ops == [] then ps else Apply(ApplyAll(ps, ops[..|ops| - 1]), ops[|ops| - 1])
  }

  // ---------------------------------------------------------------------------------
  // The concurrency bound
  // ---------------------------------------------------------------------------------

  /** The tests of a family that hold a subject at instant `t`. */
  function Holders(ps: seq<Participation>, subject: string, family: string, t: Time): set<string> {
    set p | p in ps && p.subject == subject && p.family == family && !p.state.Released? && Covers(p, t)
          :: p.test
  }

  ghost predicate Bounded(ps: seq<Participation>, k: nat) {
    forall subject, family, t :: |Holders(ps, subject, family, t)| <= k
  }

  /** The operation reserves, if at all, in block or exclude mode with a limit of at most `k`. */
  predicate Disciplined(op: Op, k: nat) {
    op.ReserveOp? ==> !op.req.mode.Warn? && op.req.limit <= k
  }

  /** Everybody who holds the subject after a request is the requesting test or one of its rivals. */
  lemma HoldersAreRivals(ps: seq<Participation>, req: Request, subject: string, family: string, t: Time)
    requires Candidate(req, subject).family == family && Covers(Candidate(req, subject), t)
    ensures Holders(Kept(ps, req.test), subject, family, t) <= Rivals(ps, req, subject) + {req.test}
  {
    forall x | x in Holders(Kept(ps, req.test), subject, family, t) ensures x in Rivals(ps, req, subject) + {req.test} {
      var q :| q in Kept(ps, req.test) && q.subject == subject && q.family == family && !q.state.Released?
               && Covers(q, t) && q.test == x;
      if x != req.test {
        assert Collide(q, Candidate(req, subject));
      }
    }
  }

  lemma HoldersAppend(a: seq<Participation>, b: seq<Participation>, subject: string, family: string, t: Time)
    ensures Holders(a + b, subject, family, t) == Holders(a, subject, family, t) + Holders(b, subject, family, t)
  {
  }

  lemma HoldersSubset(a: seq<Participation>, b: seq<Participation>, subject: string, family: string, t: Time)
    requires forall p :: p in a ==> p in b
    ensures Holders(a, subject, family, t) <= Holders(b, subject, family, t)
  {
  }

  /** A request adds its test only where fewer than `limit` others are. */
  lemma NewHolders(ps: seq<Participation>, req: Request, subject: string, family: string, t: Time)
    requires !req.mode.Warn? && !Refused(ps, req)
    ensures var news := Holders(Candidates(req, Admitted(ps, req)), subject, family, t);
            news == {} || (news == {req.test} && |Rivals(ps, req, subject)| < req.limit
                           && Candidate(req, subject).family == family && Covers(Candidate(req, subject), t))
  {
    hide Rivals;
    var rows := Candidates(req, Admitted(ps, req));
    if x :| x in Holders(rows, subject, family, t) {
      var p :| p in rows && p.subject == subject && p.family == family && Covers(p, t);
      assert subject in Admitted(ps, req) && subject !in Blocked(ps, req, req.subjects);
    }
  }

  /** A successful reservation adds the test only where fewer than `limit` others are. */
  lemma ReserveKeepsBound(ps: seq<Participation>, req: Request, k: nat, subject: string, family: string, t: Time)
    requires Bounded(ps, k) && Disciplined(ReserveOp(req), k)
    ensures |Holders(Reserve(ps, req), subject, family, t)| <= k
  {
    hide Holders, Rivals, Refused, Admitted, Acceptable;
    var before, kept := Holders(ps, subject, family, t), Kept(ps, req.test);
    if !Acceptable(req) {
      assert |before| <= k;
    } else if Refused(ps, req) {
      HoldersSubset(Reserve(ps, req), ps, subject, family, t);
      SubsetSize(Holders(Reserve(ps, req), subject, family, t), before);
    } else {
      NewHolders(ps, req, subject, family, t);
      HoldersAppend(kept, Candidates(req, Admitted(ps, req)), subject, family, t);
      HoldersSubset(kept, ps, subject, family, t);
      var after := Holders(Reserve(ps, req), subject, family, t);
      if after <= before {
        SubsetSize(after, before);
      } else {
        HoldersAreRivals(ps, req, subject, family, t);
        SubsetSize(after, Rivals(ps, req, subject) + {req.test});
      }
    }
  }

  lemma RowwiseKeepsBound(ps: seq<Participation>, op: Op, k: nat, subject: string, family: string, t: Time)
    requires Bounded(ps, k) && !op.ReserveOp?
    ensures |Holders(Apply(ps, op), subject, family, t)| <= k
  {
    var ps' := Apply(ps, op);
    var before, after := Holders(ps, subject, family, t), Holders(ps', subject, family, t);
    forall x | x in after ensures x in before {
      var q :| q in ps' && q.subject == subject && q.family == family && !q.state.Released?
               && Covers(q, t) && q.test == x;
      var i :| 0 <= i < |ps'| && ps'[i] == q;
      assert ps[i] in ps;
    }
    SubsetSize(after, before);
  }

  lemma StepKeepsBound(ps: seq<Participation>, op: Op, k: nat)
    requires Bounded(ps, k) && Disciplined(op, k)
    ensures Bounded(Apply(ps, op), k)
  {
    forall subject, family, t ensures |Holders(Apply(ps, op), subject, family, t)| <= k {
      if op.ReserveOp? {
        ReserveKeepsBound(ps, op.req, k, subject, family, t);
      } else {
        RowwiseKeepsBound(ps, op, k, subject, family, t);
      }
    }
  }

  /**
   Over every run of reserve, retry, expose and release steps whose reservations block or exclude with a limit of
   at most `k`, at every instant each subject is held by at most `k` distinct tests of one family.
   */
  lemma {:induction false} ConcurrencyBound(ops: seq<Op>, k: nat)
    requires forall i :: 0 <= i < |ops| ==> Disciplined(ops[i], k)
    ensures Bounded(ApplyAll([], ops), k)
  {
    if ops == [] {
      EmptyBounded(k);
    } else {
      var n := |ops| - 1;
      ConcurrencyBound(ops[..n], k);
      StepKeepsBound(ApplyAll([], ops[..n]), ops[n], k);
    }
  }

  // ---------------------------------------------------------------------------------
  // Which policies are bounded
  // ---------------------------------------------------------------------------------

  /** The operation reserves, if at all, under this policy. */
  predicate Follows(op: Op, mode: Mode, limit: int) {
    op.ReserveOp? ==> op.req.mode == mode && op.req.limit == limit
  }

  predicate AllFollow(ops: seq<Op>, mode: Mode, limit: int) {
    forall i :: 0 <= i < |ops| ==> Follows(ops[i], mode, limit)
  }

  function TestName(i: nat): (s: string)
    ensures |s| == i + 1
  {
    seq(i + 1, _ => 'a')
  }

  function Subject(): (s: string)
    ensures IsSubjectKey(s)
  {
    seq(64, _ => '0')
  }

  /** The same subject and window, for test after test. */
  function CrowdRequest(i: nat, mode: Mode, limit: int): Request {
    Request(TestName(i), "mail", 0, 10, [Subject()], mode, limit, 0)
  }

  function Crowd(n: nat, mode: Mode, limit: int): (ops: seq<Op>)
    ensures |ops| == n && forall i :: 0 <= i < n ==> ops[i] == ReserveOp(CrowdRequest(i, mode, limit))
  {
    seq(n, i requires 0 <= i < n => ReserveOp(CrowdRequest(i, mode, limit)))
  }

  function TestNames(n: nat): (r: set<string>)
    ensures |r| == n && forall s :: s in r ==> |s| <= n
    ensures forall i: nat :: i < n ==> TestName(i) in r
  {
    if n == 0 then {} else TestNames(n - 1) + {TestName(n - 1)}
  }

  /** While the policy lets them in, every test of the crowd holds the subject, and nobody else does. */
  lemma {:induction false} CrowdGetsIn(n: nat, mode: Mode, limit: int)
    requires limit >= 1 && (mode.Warn? || n <= limit)
    ensures var ps := ApplyAll([], Crowd(n, mode, limit));
            && (forall p :: p in ps ==> p.test in TestNames(n))
            && (forall i: nat :: i < n ==> Candidate(CrowdRequest(i, mode, limit), Subject()) in ps)
  {
    hide Reserve, CrowdRequest, TestNames, Candidate;
    if n > 0 {
      CrowdGetsIn(n - 1, mode, limit);
      var ops := Crowd(n, mode, limit);
      assert ops[..n - 1] == Crowd(n - 1, mode, limit);
      NextGetsIn(ApplyAll([], ops[..n - 1]), n - 1, mode, limit);
    }
  }

  lemma CrowdAdmitted(ps: seq<Participation>, n: nat, mode: Mode, limit: int)
    requires limit >= 1 && (mode.Warn? || n < limit) && forall p :: p in ps ==> p.test in TestNames(n)
    ensures var req := CrowdRequest(n, mode, limit);
            !Refused(ps, req) && forall s :: s in Admitted(ps, req) <==> s == Subject()
  {
    hide Collide;
    var req := CrowdRequest(n, mode, limit);
    SubsetSize(Rivals(ps, req, Subject()), TestNames(n));
    assert forall s :: s in req.subjects <==> s == Subject();
    assert !mode.Warn? ==> Subject() !in Blocked(ps, req, req.subjects);
  }

  lemma CandidateIn(req: Request, subjects: seq<string>, s: string)
    requires s in subjects
    ensures Candidate(req, s) in Candidates(req, subjects)
  {
    var i :| 0 <= i < |subjects| && subjects[i] == s;
    assert Candidates(req, subjects)[i] == Candidate(req, s);
  }

  lemma NextGetsIn(ps: seq<Participation>, n: nat, mode: Mode, limit: int)
    requires limit >= 1 && (mode.Warn? || n < limit) && forall p :: p in ps ==> p.test in TestNames(n)
    ensures var ps', req := Reserve(ps, CrowdRequest(n, mode, limit)), CrowdRequest(n, mode, limit);
            && Candidate(req, Subject()) in ps' && (forall p :: p in ps ==> p in ps')
            && (forall p :: p in ps' ==> p.test in TestNames(n + 1))
  {
    hide IsFamilyKey, Refused, Admitted, IsSubjectKey;
    var req := CrowdRequest(n, mode, limit);
    MailIsFamily();
    CrowdAdmitted(ps, n, mode, limit);
    CandidateIn(req, Admitted(ps, req), Subject());
    forall p | p in ps ensures p.test != req.test {
      assert |p.test| <= n;
    }
    var news := Candidates(req, Admitted(ps, req));
    assert Reserve(ps, req) == Kept(ps, req.test) + news;
    assert forall p :: p in news ==> p.test == req.test;
  }

  lemma MailIsFamily()
    ensures IsFamilyKey("mail")
  {
  }

  /** A policy that warns only, or allows more than `k`, lets a run of k + 1 reservations exceed `k`. */
  lemma CrowdExceeds(mode: Mode, limit: int, k: nat)
    requires limit >= 1 && (mode.Warn? || limit > k)
    ensures |Crowd(k + 1, mode, limit)| == k + 1 && AllFollow(Crowd(k + 1, mode, limit), mode, limit)
    ensures !Bounded(ApplyAll([], Crowd(k + 1, mode, limit)), k)
  {
    CrowdGetsIn(k + 1, mode, limit);
    var ps := ApplyAll([], Crowd(k + 1, mode, limit));
    var holders := Holders(ps, Subject(), "mail", 5);
    CrowdHolds(ps, k + 1, mode, limit);
    SubsetSize(TestNames(k + 1), holders);
  }

  lemma {:induction false} CrowdHolds(ps: seq<Participation>, n: nat, mode: Mode, limit: int)
    requires forall i: nat :: i < n ==> Candidate(CrowdRequest(i, mode, limit), Subject()) in ps
    ensures TestNames(n) <= Holders(ps, Subject(), "mail", 5)
  {
    if n > 0 {
      CrowdHolds(ps, n - 1, mode, limit);
      var p := Candidate(CrowdRequest(n - 1, mode, limit), Subject());
      assert p in ps && p.subject == Subject() && p.family == "mail" && Covers(p, 5);
    }
  }

  /** Without an acceptable limit nothing is ever reserved. */
  lemma {:induction false} NothingReserved(ops: seq<Op>)
    requires forall i :: 0 <= i < |ops| && ops[i].ReserveOp? ==> ops[i].req.limit < 1
    ensures ApplyAll([], ops) == []
  {
    if ops != [] {
      NothingReserved(ops[..|ops| - 1]);
    }
  }

  /** Every run under a policy keeps at most `k` tests per subject, family and instant. */
  ghost predicate PolicyBounded(mode: Mode, limit: int, k: nat) {
    forall ops :: AllFollow(ops, mode, limit) ==> Bounded(ApplyAll([], ops), k)
  }

  /** Exactly the policies that block or exclude at a limit of at most `k` do, or that can reserve nothing at all. */
  lemma PolicyBound(mode: Mode, limit: int, k: nat)
    ensures PolicyBounded(mode, limit, k) <==> limit < 1 || (!mode.Warn? && limit <= k)
  {
    hide Bounded, ApplyAll;
    if limit < 1 || (!mode.Warn? && limit <= k) {
      forall ops | AllFollow(ops, mode, limit) ensures Bounded(ApplyAll([], ops), k) {
        if limit < 1 {
          NothingReserved(ops);
          EmptyBounded(k);
        } else {
          ConcurrencyBound(ops, k);
        }
      }
    } else {
      CrowdExceeds(mode, limit, k);
    }
  }

  lemma EmptyBounded(k: nat)
    ensures Bounded([], k)
  {
    assert forall subject, family, t :: Holders([], subject, family, t) == {};
  }

  lemma {:induction false} KeptAndReplaced(ps: seq<Participation>, test: string)
    ensures multiset(Kept(ps, test)) + multiset(Replaced(ps, test)) == multiset(ps)
  {
    if ps != [] {
      KeptAndReplaced(ps[1..], test);
      assert ps == [ps[0]] + ps[1..];
    }
  }

  /** A refused reservation loses and gains nothing. */
  lemma RefusalRestores(ps: seq<Participation>, req: Request)
    requires Refused(ps, req)
    ensures multiset(Reserve(ps, req)) == multiset(ps)
  {
    KeptAndReplaced(ps, req.test);
  }

  /** Exclude mode leaves out exactly the subjects that are at their limit. */
  lemma ExcludeIsExact(ps: seq<Participation>, req: Request, subject: string)
    requires Acceptable(req) && req.mode.Exclude? && subject in req.subjects
    ensures Candidate(req, subject) in Reserve(ps, req) <==> !AtLimit(ps, req, subject)
  {
    var admitted := Admitted(ps, req);
    if !AtLimit(ps, req, subject) {
      assert subject in admitted;
      var i :| 0 <= i < |admitted| && admitted[i] == subject;
      assert Candidates(req, admitted)[i] == Candidate(req, subject);
    } else {
      assert subject in Blocked(ps, req, req.subjects);
      forall i | 0 <= i < |admitted| ensures Candidates(req, admitted)[i] != Candidate(req, subject) {
        assert admitted[i] in admitted;
      }
    }
  }

  /** No operation whose time is not past the end of its window takes an exposed participation away. */
  lemma ExposureStep(ps: seq<Participation>, op: Op, p: Participation)
    requires p in ps && p.state.Exposed?
    requires (op.ReleasePassedOp? || op.ReleaseTestOp?) ==> op.at <= p.endsAt
    ensures p in Apply(ps, op)
  {
    var i :| 0 <= i < |ps| && ps[i] == p;
    if !op.ReserveOp? {
      assert Apply(ps, op)[i] == p;
    }
  }

  /** So an exposed participation keeps its place until its window has ended, and a released one is kept for audit. */
  lemma {:induction false} HistoryKept(ps: seq<Participation>, ops: seq<Op>, p: Participation)
    requires p in ps && (p.state.Released? || p.state.Exposed?)
    requires p.state.Exposed? ==> forall i :: 0 <= i < |ops| && (ops[i].ReleasePassedOp? || ops[i].ReleaseTestOp?)
                                              ==> ops[i].at <= p.endsAt
    ensures p in ApplyAll(ps, ops)
  {
    if ops != [] {
      var n := |ops| - 1;
      HistoryKept(ps, ops[..n], p);
      var before := ApplyAll(ps, ops[..n]);
      if p.state.Exposed? {
        ExposureStep(before, ops[n], p);
      } else if !ops[n].ReserveOp? {
        var i :| 0 <= i < |before| && before[i] == p;
        assert Apply(before, ops[n])[i] == p;
      }
    }
  }
}
