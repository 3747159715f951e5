/**
 Stopping an A/B test (packages/abtest/src/lifecycle.ts and the stop command of packages/abtest/src/factory.ts):
 read every backing campaign's status, plan, act, and only then touch the temporary lists, against a server whose
 campaigns move on by themselves and whose requests may fail.
 */
module Lifecycle {
  import opened Prelude

  type CampaignId = nat
  type ListId = nat

  datatype Status = Draft | Scheduled | Running | Paused | Finished | Sent | Cancelled | Other

  predicate Terminal(s: Status) {
    s.Finished? || s.Sent? || s.Cancelled?
  }

  type Campaigns = map<CampaignId, Status>

  /** Deleted campaigns stay deleted and terminal ones keep their status; anything else may change. */
  predicate Evolves(before: Campaigns, after: Campaigns) {
    && after.Keys <= before.Keys
    && forall id :: id in after.Keys ==> Terminal(before[id]) ==> after[id] == before[id]
  }

  /** The campaign cannot send any more: it is deleted or in a terminal status. */
  predicate Settled(c: Campaigns, id: CampaignId) {
    id in c ==> Terminal(c[id])
  }

  /** What is settled or gone stays so. */
  lemma EvolvesKeeps(a: Campaigns, b: Campaigns, c: Campaigns)
    requires Evolves(a, b) && Evolves(b, c)
    ensures Evolves(a, c)
    ensures forall id :: Settled(a, id) ==> Settled(c, id)
    ensures forall id :: id !in b ==> id !in c
  {
  }

  // ---------------------------------------------------------------------------------
  // The server
  // ---------------------------------------------------------------------------------

  /** How a request fares: processed, answered with an error, or processed with the answer lost. */
  datatype Weather = Clear | Down | AnswerLost

  /** What happens around one request: the server's campaigns move to `move` if they can, then the request is made. */
  datatype Turn = Turn(move: Option<Campaigns>, weather: Weather)

  datatype Reply = Done | NotFound | Error

  datatype Reading = Seen(status: Status) | Gone | Unreadable

  class Server {
    const script: nat -> Turn
    var turn: nat
    var campaigns: Campaigns
    var lists: set<ListId>
    /** The campaigns that existed when each list deletion was requested. */
    ghost var listDeletions: seq<set<CampaignId>>

    constructor (script: nat -> Turn, campaigns: Campaigns, lists: set<ListId>)
      ensures this.script == script && this.campaigns == campaigns && this.lists == lists
      ensures turn == 0 && listDeletions == []
    {
      this.script, this.turn, this.campaigns, this.lists := script, 0, campaigns, lists;
      this.listDeletions := [];
    }

    /** From now on nothing moves by itself and every request is processed. */
    ghost predicate Calm()
      reads this
    {
      forall t :: turn <= t ==> script(t) == Turn(None, Clear)
    }

    method Advance() returns (weather: Weather)
      modifies this`turn, this`campaigns
      ensures turn == old(turn) + 1 && Evolves(old(campaigns), campaigns)
      ensures old(Calm()) ==> Calm() && weather == Clear && campaigns == old(campaigns)
    {
      var now := script(turn);
      turn := turn + 1;
      if now.move.Some? && Evolves(campaigns, now.move.value) {
        campaigns := now.move.value;
      }
      weather := now.weather;
    }

    method GetStatus(id: CampaignId) returns (r: Reading)
      modifies this`turn, this`campaigns
      ensures Evolves(old(campaigns), campaigns)
      ensures r.Seen? ==> id in campaigns && campaigns[id] == r.status
      ensures r.Gone? ==> id !in campaigns
      ensures old(Calm()) ==> Calm() && campaigns == old(campaigns) && !r.Unreadable?
    {
      var weather := Advance();
      if weather != Clear {
        return Unreadable;
      }
      r := if id in campaigns then Seen(campaigns[id]) else Gone;
    }

    /** Only running campaigns can be cancelled. */
    method Cancel(id: CampaignId) returns (r: Reply)
      modifies this`turn, this`campaigns
      ensures Evolves(old(campaigns), campaigns)
      ensures r.Done? ==> id in campaigns && campaigns[id] == Cancelled
      ensures r.NotFound? ==> id !in campaigns
      ensures old(Calm()) ==> Calm() && campaigns == ActOn(old(campaigns), CancelIt(id))
      ensures old(Calm() && id in campaigns && campaigns[id] == Running) ==> r == Done
    {
      var weather := Advance();
      if weather == Down {
        return Error;
      }
      r := Done;
      if id !in campaigns {
        r := NotFound;
      } else if campaigns[id] != Running {
        r := Error;
      } else {
        campaigns := campaigns[id := Cancelled];
      }
      if weather == AnswerLost {
        r := Error;
      }
    }

    method Delete(id: CampaignId) returns (r: Reply)
      modifies this`turn, this`campaigns
      ensures Evolves(old(campaigns), campaigns)
      ensures !r.Error? ==> id !in campaigns
      ensures old(Calm()) ==> Calm() && !r.Error? && campaigns == ActOn(old(campaigns), DeleteIt(id))
    {
      var weather := Advance();
      if weather == Down {
        return Error;
      }
      r := if id in campaigns then Done else NotFound;
      campaigns := campaigns - {id};
      if weather == AnswerLost {
        r := Error;
      }
    }

    method DeleteList(id: ListId) returns (r: Reply)
      modifies this
      ensures Evolves(old(campaigns), campaigns)
      ensures exists present :: present <= old(campaigns.Keys) && listDeletions == old(listDeletions) + [present]
      ensures lists <= old(lists) && old(lists) - {id} <= lists
      ensures !r.Error? ==> id !in lists
      ensures old(Calm()) ==> Calm() && !r.Error? && campaigns == old(campaigns) && lists == old(lists) - {id}
    {
      var weather := Advance();
      listDeletions := listDeletions + [campaigns.Keys];
      if weather == Down {
        return Error;
      }
      r := if id in lists then Done else NotFound;
      lists := lists - {id};
      if weather == AnswerLost {
        r := Error;
      }
    }
  }

  // ---------------------------------------------------------------------------------
  // The plan
  // ---------------------------------------------------------------------------------

  datatype Action = CancelIt(id: CampaignId) | DeleteIt(id: CampaignId) | LeaveIt(id: CampaignId)

  datatype TestStatus =
    | TestDraft | TestTesting | TestScheduled | TestRunning | TestAnalyzing | TestDeploying | TestCancelling
    | TestCompleted | TestInconclusive | TestCancelled | TestFailed

  datatype Test = Test(
    campaigns: seq<CampaignId>, lists: seq<ListId>, holdout: Option<ListId>, winner: Option<CampaignId>)

  datatype Plan = Plan(actions: seq<Action>, lists: seq<ListId>, blocking: seq<CampaignId>)

  type Readings = map<CampaignId, Reading>

  function ReadingOf(seen: Readings, id: CampaignId): Reading {
    if id in seen then seen[id] else Unreadable
  }

  /** Which statuses can be cancelled, which are left alone, and whether those are deleted after all. */
  datatype Options = Options(deleteTerminal: bool, active: set<Status>, terminal: set<Status>)

  function DefaultOptions(deleteTerminal: bool): Options {
    Options(deleteTerminal, {Running}, {Finished, Sent, Cancelled})
  }

  /** What the planner does about a campaign. */
  function ActionFor(seen: Readings, id: CampaignId, opts: Options): Action {
    match ReadingOf(seen, id)
    case Unreadable => LeaveIt(id)
    case Gone => LeaveIt(id)
    case Seen(s) =>
      if s in opts.active then CancelIt(id)
      else if s in opts.terminal && !opts.deleteTerminal then LeaveIt(id)
      else DeleteIt(id)
  }

  /** The campaign keeps referring to its list after a planned action. */
  predicate Blocks(seen: Readings, id: CampaignId, opts: Options) {
    match ReadingOf(seen, id)
    case Unreadable => true
    case Gone => false
    case Seen(s) => s in opts.active || (s in opts.terminal && !opts.deleteTerminal)
  }

  function ListsOf(test: Test): set<ListId> {
    (set l | l in test.lists) + if test.holdout.Some? then {test.holdout.value} else {}
  }

  method AddList(lists: seq<ListId>, id: ListId) returns (r: seq<ListId>)
    requires Distinct(lists)
    ensures Distinct(r) && forall x :: x in r <==> x in lists || x == id
  {
    r := if id in lists then lists else lists + [id];
  }

  /** The plan in terms of what was observed. */
  ghost predicate PlanFits(test: Test, seen: Readings, opts: Options, plan: Plan) {
    && |plan.actions| == |test.campaigns|
    // Observed active campaigns are cancelled, observed others deleted unless they are terminal and to be kept.
    && (forall i :: 0 <= i < |plan.actions| ==>
          var a, id := plan.actions[i], test.campaigns[i];
          && a.id == id
          && (a.CancelIt? <==> id in seen && seen[id].Seen? && seen[id].status in opts.active)
          && (a.DeleteIt? <==> id in seen && seen[id].Seen? && seen[id].status !in opts.active
                               && (seen[id].status in opts.terminal ==> opts.deleteTerminal)))
    // Lists have to wait for the winner and for every campaign neither gone nor to be deleted.
    && (forall id :: id in plan.blocking <==>
          || test.winner == Some(id)
          || (id in test.campaigns && !(id in seen && seen[id].Gone?) && DeleteIt(id) !in plan.actions))
  }

  method PlanCancel(test: Test, seen: Readings, opts: Options) returns (plan: Plan)
    ensures |plan.actions| == |test.campaigns|
    ensures forall i :: 0 <= i < |plan.actions| ==> plan.actions[i] == ActionFor(seen, test.campaigns[i], opts)
    ensures PlanFits(test, seen, opts, plan)
    ensures forall id :: id in plan.blocking <==>
              (id in test.campaigns && Blocks(seen, id, opts)) || test.winner == Some(id)
    ensures Distinct(plan.lists) && forall l :: l in plan.lists <==> l in ListsOf(test)
  {
    var actions, surviving := [], [];
    for i := 0 to |test.campaigns|
      invariant |actions| == i
      invariant forall k :: 0 <= k < i ==> actions[k] == ActionFor(seen, test.campaigns[k], opts)
      invariant forall id :: id in surviving <==> id in test.campaigns[..i] && Blocks(seen, id, opts)
    {
      var id := test.campaigns[i];
      assert test.campaigns[..i + 1] == test.campaigns[..i] + [id];
      if id !in seen || seen[id].Unreadable? {
        actions, surviving := actions + [LeaveIt(id)], surviving + [id];
      } else if seen[id].Gone? {
        actions := actions + [LeaveIt(id)];
      } else if seen[id].status in opts.active {
        actions, surviving := actions + [CancelIt(id)], surviving + [id];
      } else if seen[id].status in opts.terminal {
        if opts.deleteTerminal {
          actions := actions + [DeleteIt(id)];
        } else {
          actions, surviving := actions + [LeaveIt(id)], surviving + [id];
        }
      } else {
        actions := actions + [DeleteIt(id)];
      }
    }
    assert test.campaigns[..|test.campaigns|] == test.campaigns;
    var lists: seq<ListId> := [];
    for i := 0 to |test.lists|
      invariant Distinct(lists) && forall l :: l in lists <==> l in test.lists[..i]
    {
      assert test.lists[..i + 1] == test.lists[..i] + [test.lists[i]];
      lists := AddList(lists, test.lists[i]);
    }
    assert test.lists[..|test.lists|] == test.lists;
    if test.holdout.Some? {
      lists := AddList(lists, test.holdout.value);
    }
    if test.winner.Some? {
      surviving := surviving + [test.winner.value];
    }
    plan := Plan(actions, lists, surviving);
    forall id | id in test.campaigns ensures Blocks(seen, id, opts) <==>
                  !(id in seen && seen[id].Gone?) && DeleteIt(id) !in actions {
      var i :| 0 <= i < |test.campaigns| && test.campaigns[i] == id;
      assert actions[i] == ActionFor(seen, id, opts) && actions[i] in actions;
      assert forall k :: 0 <= k < |actions| && actions[k] == DeleteIt(id) ==> test.campaigns[k] == id;
    }
  }

  // ---------------------------------------------------------------------------------
  // Acting on campaigns
  // ---------------------------------------------------------------------------------

  /** What an action does to a server that processes it. */
  function ActOn(c: Campaigns, a: Action): Campaigns {
    match a
    case CancelIt(id) => if id in c && c[id] == Running then c[id := Cancelled] else c
    case DeleteIt(id) => c - {id}
    case LeaveIt(_) => c
  }

  function Lookup(c: Campaigns, id: CampaignId): Option<Status> {
    if id in c then Some(c[id]) else None
  }

  /** `cur` is `c` with the actions carried out, each on its own campaign. */
  ghost predicate Carried(c: Campaigns, cur: Campaigns, acts: seq<Action>) {
    && (forall k :: 0 <= k < |acts| ==> Lookup(cur, acts[k].id) == Lookup(ActOn(c, acts[k]), acts[k].id))
    && (forall id :: !Concerns(acts, id) ==> Lookup(cur, id) == Lookup(c, id))
  }

  predicate Concerns(acts: seq<Action>, id: CampaignId) {
    exists k :: 0 <= k < |acts| && acts[k].id == id
  }

  lemma CarriedStep(c: Campaigns, cur: Campaigns, acts: seq<Action>, a: Action)
    requires Carried(c, cur, acts) && !Concerns(acts, a.id)
    ensures Carried(c, ActOn(cur, a), acts + [a])
  {
    assert Lookup(cur, a.id) == Lookup(c, a.id);
    forall id | !Concerns(acts + [a], id) ensures !Concerns(acts, id) && id != a.id {
      assert (acts + [a])[|acts|] == a;
      assert forall k :: 0 <= k < |acts| ==> (acts + [a])[k] == acts[k];
    }
  }

  /** The order in which concurrent requests reach the server: every index once. */
  predicate Schedule(order: seq<nat>, n: nat) {
    && |order| == n && Distinct(order)
    && (forall k :: 0 <= k < n ==> order[k] < n)
    && (forall i: nat :: i < n ==> i in order)
  }

  function InOrder<T>(s: seq<T>, order: seq<nat>): (r: seq<T>)
    requires forall k :: 0 <= k < |order| ==> order[k] < |s|
    ensures |r| == |order| && forall k :: 0 <= k < |r| ==> r[k] == s[order[k]]
  {
    seq(|order|, k requires 0 <= k < |order| => s[order[k]])
  }

  predicate DistinctIds(actions: seq<Action>) {
    forall i, j :: 0 <= i < j < |actions| ==> actions[i].id != actions[j].id
  }

  /** A cancellation is only tried on a running campaign. */
  predicate CancelsRunning(c: Campaigns, actions: seq<Action>) {
    forall i :: 0 <= i < |actions| && actions[i].CancelIt? ==> Lookup(c, actions[i].id) == Some(Running)
  }

  /** What an answer tells about the campaign from then on. */
  predicate Shows(a: Action, r: Reply, c: Campaigns) {
    && (a.DeleteIt? && !r.Error? ==> a.id !in c)
    && (a.CancelIt? && !r.Error? ==> Settled(c, a.id))
    && (a.LeaveIt? ==> r.Done?)
  }

  method Perform(server: Server, a: Action) returns (r: Reply)
    modifies server`turn, server`campaigns
    ensures Evolves(old(server.campaigns), server.campaigns) && Shows(a, r, server.campaigns)
    ensures old(server.Calm()) ==> server.Calm() && server.campaigns == ActOn(old(server.campaigns), a)
    ensures old(server.Calm() && (a.CancelIt? ==> Lookup(server.campaigns, a.id) == Some(Running))) ==> !r.Error?
  {
    match a {
      case LeaveIt(_) => r := Done;
      case CancelIt(id) => r := server.Cancel(id);
      case DeleteIt(id) => r := server.Delete(id);
    }
  }

  lemma ShowsStays(a: Action, r: Reply, c: Campaigns, later: Campaigns)
    requires Shows(a, r, c) && Evolves(c, later)
    ensures Shows(a, r, later)
  {
  }

  /** The campaign phase: all actions, in any order. */
  method ActAll(server: Server, actions: seq<Action>, order: seq<nat>) returns (replies: seq<Reply>)
    requires Schedule(order, |actions|)
    modifies server`turn, server`campaigns
    ensures Evolves(old(server.campaigns), server.campaigns) && |replies| == |actions|
    ensures forall i :: 0 <= i < |actions| ==> Shows(actions[i], replies[i], server.campaigns)
    ensures old(server.Calm()) && DistinctIds(actions) && CancelsRunning(old(server.campaigns), actions) ==>
              && server.Calm() && Carried(old(server.campaigns), server.campaigns, InOrder(actions, order))
              && forall i :: 0 <= i < |actions| ==> !replies[i].Error?
  {
    hide Shows, Carried, Evolves, ActOn, Lookup, CancelsRunning;
    replies := seq(|actions|, _ => Error);
    ghost var c := server.campaigns;
    ghost var calm := server.Calm() && DistinctIds(actions) && CancelsRunning(c, actions);
    StartCarried(c);
    for k := 0 to |order|
      invariant |replies| == |actions| && Evolves(c, server.campaigns)
      invariant forall l :: 0 <= l < k ==> Shows(actions[order[l]], replies[order[l]], server.campaigns)
      invariant calm ==> server.Calm() && Carried(c, server.campaigns, InOrder(actions, order[..k]))
      invariant calm ==> forall l :: 0 <= l < k ==> !replies[order[l]].Error?
    {
      var i := order[k];
      ghost var before := server.campaigns;
      if calm {
        Untouched(c, before, actions, order, k);
      }
      var reply := Perform(server, actions[i]);
      EvolvesKeeps(c, before, server.campaigns);
      forall l | 0 <= l < k ensures Shows(actions[order[l]], replies[order[l]], server.campaigns) {
        ShowsStays(actions[order[l]], replies[order[l]], before, server.campaigns);
      }
      if calm {
        CarriedStep(c, before, InOrder(actions, order[..k]), actions[i]);
        assert InOrder(actions, order[..k + 1]) == InOrder(actions, order[..k]) + [actions[i]];
      }
      replies := replies[i := reply];
    }
    assert order[..|order|] == order;
    forall i | 0 <= i < |actions|
      ensures Shows(actions[i], replies[i], server.campaigns) && (calm ==> !replies[i].Error?)
    {
      assert i in order;
      var k :| 0 <= k < |order| && order[k] == i;
    }
  }

  lemma StartCarried(c: Campaigns)
    ensures Carried(c, c, []) && Evolves(c, c)
  {
  }

  lemma Untouched(c: Campaigns, cur: Campaigns, actions: seq<Action>, order: seq<nat>, k: nat)
    requires Schedule(order, |actions|) && k < |order| && DistinctIds(actions) && CancelsRunning(c, actions)
    requires Carried(c, cur, InOrder(actions, order[..k]))
    ensures !Concerns(InOrder(actions, order[..k]), actions[order[k]].id)
    ensures actions[order[k]].CancelIt? ==> Lookup(cur, actions[order[k]].id) == Some(Running)
  {
    hide ActOn, Lookup;
    var acts := InOrder(actions, order[..k]);
    forall l | 0 <= l < k ensures acts[l].id != actions[order[k]].id {
      assert order[l] != order[k];
    }
  }

  // ---------------------------------------------------------------------------------
  // Reading the statuses
  // ---------------------------------------------------------------------------------

  /** What was read and cannot have changed since: gone stays gone, terminal stays terminal. */
  predicate Reliable(seen: Readings, c: Campaigns) {
    forall id :: id in seen ==>
      (seen[id].Gone? ==> id !in c) && (seen[id].Seen? && Terminal(seen[id].status) ==> Settled(c, id))
  }

  predicate Accurate(seen: Readings, c: Campaigns) {
    forall id :: id in seen ==> seen[id] == if id in c then Seen(c[id]) else Gone
  }

  /** Reads each campaign, in any order; failures are kept apart. */
  method FetchStatuses(server: Server, ids: seq<CampaignId>, order: seq<nat>)
    returns (seen: Readings, unobservable: seq<CampaignId>)
    requires Schedule(order, |ids|)
    modifies server`turn, server`campaigns
    ensures Evolves(old(server.campaigns), server.campaigns) && Reliable(seen, server.campaigns)
    ensures forall id :: id in ids ==> id in seen || id in unobservable
    ensures forall id :: id in seen ==> id in ids && !seen[id].Unreadable?
    ensures old(server.Calm()) ==>
              && server.Calm() && server.campaigns == old(server.campaigns)
              && unobservable == [] && Accurate(seen, server.campaigns)
  {
    seen, unobservable := map[], [];
    ghost var c, calm := server.campaigns, server.Calm();
    for k := 0 to |order|
      invariant Evolves(c, server.campaigns) && Reliable(seen, server.campaigns)
      invariant forall l :: 0 <= l < k ==> ids[order[l]] in seen || ids[order[l]] in unobservable
      invariant forall id :: id in seen ==> id in ids && !seen[id].Unreadable?
      invariant calm ==> server.Calm() && server.campaigns == c && unobservable == [] && Accurate(seen, c)
    {
      var id := ids[order[k]];
      ghost var before := server.campaigns;
      var reading := server.GetStatus(id);
      EvolvesKeeps(c, before, server.campaigns);
      if reading.Unreadable? {
        unobservable := unobservable + [id];
      } else {
        seen := seen[id := reading];
      }
    }
    forall id | id in ids ensures id in seen || id in unobservable {
      var i :| 0 <= i < |ids| && ids[i] == id;
      assert i in order;
      var k :| 0 <= k < |order| && order[k] == i;
    }
  }

  // ---------------------------------------------------------------------------------
  // Lists
  // ---------------------------------------------------------------------------------

  /** Every entry of the log from `from` on shows only campaigns of `present`. */
  ghost predicate LogWithin(log: seq<set<CampaignId>>, from: nat, present: set<CampaignId>) {
    forall k :: from <= k < |log| ==> log[k] <= present
  }

  /** The list phase: all deletions, in any order. */
  method DeleteLists(server: Server, lists: seq<ListId>, order: seq<nat>) returns (replies: seq<Reply>)
    requires Schedule(order, |lists|)
    modifies server
    ensures Evolves(old(server.campaigns), server.campaigns) && |replies| == |lists|
    ensures old(server.listDeletions) <= server.listDeletions
    ensures LogWithin(server.listDeletions, |old(server.listDeletions)|, old(server.campaigns.Keys))
    ensures server.lists <= old(server.lists)
    ensures forall i :: 0 <= i < |lists| && !replies[i].Error? ==> lists[i] !in server.lists
    ensures old(server.Calm()) ==>
              && server.Calm() && server.campaigns == old(server.campaigns)
              && server.lists == old(server.lists) - (set l | l in lists)
              && forall i :: 0 <= i < |lists| ==> !replies[i].Error?
  {
    hide Schedule;
    replies := seq(|lists|, _ => Error);
    ghost var c, calm, log, held := server.campaigns, server.Calm(), server.listDeletions, server.lists;
    assert forall k :: 0 <= k < |order| ==> order[k] < |lists| by { ScheduleBounds(order, |lists|); }
    for k := 0 to |order|
      invariant |replies| == |lists| && Evolves(c, server.campaigns)
      invariant log <= server.listDeletions && LogWithin(server.listDeletions, |log|, c.Keys)
      invariant server.lists <= held
      invariant forall l :: 0 <= l < k && !replies[order[l]].Error? ==> lists[order[l]] !in server.lists
      invariant forall x :: x in held && x !in server.lists ==> x in lists
      invariant calm ==> server.Calm() && server.campaigns == c
      invariant calm ==> forall l :: 0 <= l < k ==> !replies[order[l]].Error?
    {
      var i := order[k];
      ghost var before := server.campaigns;
      var reply := server.DeleteList(lists[i]);
      EvolvesKeeps(c, before, server.campaigns);
      replies := replies[i := reply];
    }
    ScheduleCovers(order, |lists|);
    forall i | 0 <= i < |lists|
      ensures !replies[i].Error? ==> lists[i] !in server.lists
      ensures calm ==> !replies[i].Error?
    {
      assert i in order;
      var k :| 0 <= k < |order| && order[k] == i;
    }
  }

  lemma ScheduleBounds(order: seq<nat>, n: nat)
    requires Schedule(order, n)
    ensures |order| == n && forall k :: 0 <= k < |order| ==> order[k] < n
  {
  }

  lemma ScheduleCovers(order: seq<nat>, n: nat)
    requires Schedule(order, n)
    ensures forall i: nat :: i < n ==> i in order
  {
  }

  // ---------------------------------------------------------------------------------
  // Executing a plan
  // ---------------------------------------------------------------------------------

  datatype ListOutcome = Answered(reply: Reply) | SkippedActiveReference

  datatype CancelResult = CancelResult(campaigns: seq<Reply>, lists: seq<ListOutcome>)

  predicate AnyFailed(r: CancelResult) {
    Error in r.campaigns || Answered(Error) in r.lists
  }

  /** Campaigns whose deletion was acknowledged. */
  function DeletedIds(actions: seq<Action>, replies: seq<Reply>): set<CampaignId>
    requires |actions| == |replies|
  {
    set i | 0 <= i < |actions| && actions[i].DeleteIt? && replies[i].Done? :: actions[i].id
  }

  /** Some campaign may still refer to a list. */
  predicate Survivors(plan: Plan, replies: seq<Reply>)
    requires |plan.actions| == |replies|
  {
    (exists id :: id in plan.blocking && id !in DeletedIds(plan.actions, replies)) || Error in replies
  }

  lemma DeletedAreGone(actions: seq<Action>, replies: seq<Reply>, c: Campaigns)
    requires |actions| == |replies| && forall i :: 0 <= i < |actions| ==> Shows(actions[i], replies[i], c)
    ensures forall id :: id in DeletedIds(actions, replies) ==> id !in c
  {
  }

  /** None of these campaigns exists at any list deletion from `from` on. */
  ghost predicate NoneReferred(log: seq<set<CampaignId>>, from: nat, ids: set<CampaignId>) {
    forall k :: from <= k < |log| ==> log[k] !! ids
  }

  /** The campaigns a list deletion must wait for. */
  function Watched(plan: Plan): set<CampaignId> {
    (set id | id in plan.blocking) + (set a | a in plan.actions && a.DeleteIt? :: a.id)
  }

  method ExecutePlan(server: Server, plan: Plan, order: seq<nat>, listOrder: seq<nat>) returns (r: CancelResult)
    requires Schedule(order, |plan.actions|) && Schedule(listOrder, |plan.lists|)
    modifies server
    ensures Evolves(old(server.campaigns), server.campaigns)
    ensures |r.campaigns| == |plan.actions| && |r.lists| == |plan.lists|
    ensures forall i :: 0 <= i < |plan.actions| ==> Shows(plan.actions[i], r.campaigns[i], server.campaigns)
    // Lists are touched only when everything that referred to them is gone, and then all of them are.
    ensures old(server.listDeletions) <= server.listDeletions
    ensures LogWithin(server.listDeletions, |old(server.listDeletions)|, old(server.campaigns.Keys))
    ensures NoneReferred(server.listDeletions, |old(server.listDeletions)|, Watched(plan))
    ensures Survivors(plan, r.campaigns) ==>
              && server.lists == old(server.lists) && server.listDeletions == old(server.listDeletions)
              && forall i :: 0 <= i < |r.lists| ==> r.lists[i] == SkippedActiveReference
    ensures !Survivors(plan, r.campaigns) ==>
              forall i :: 0 <= i < |r.lists| ==>
                r.lists[i].Answered? && (r.lists[i].reply.Error? || plan.lists[i] !in server.lists)
    ensures !AnyFailed(r) ==> AllOrNone(plan.lists, old(server.lists), server.lists)
    ensures old(server.Calm()) && DistinctIds(plan.actions) && CancelsRunning(old(server.campaigns), plan.actions) ==>
              && !AnyFailed(r)
              && Carried(old(server.campaigns), server.campaigns, InOrder(plan.actions, order))
              && (!Survivors(plan, r.campaigns) ==> server.lists == old(server.lists) - set l | l in plan.lists)
  {
    hide Carried, Schedule, Evolves, CancelsRunning, DistinctIds;
    ScheduleBounds(order, |plan.actions|);
    var replies := ActAll(server, plan.actions, order);
    ghost var c := server.campaigns;
    assert c.Keys <= old(server.campaigns).Keys by { OnlyShrinks(old(server.campaigns), c); }
    if Survivors(plan, replies) {
      return CancelResult(replies, seq(|plan.lists|, _ => SkippedActiveReference));
    }
    DeletedAreGone(plan.actions, replies, c);
    WatchedAreGone(plan, replies, c);
    var answers := DeleteLists(server, plan.lists, listOrder);
    EvolvesKeeps(old(server.campaigns), c, server.campaigns);
    forall i | 0 <= i < |plan.actions| ensures Shows(plan.actions[i], replies[i], server.campaigns) {
      ShowsStays(plan.actions[i], replies[i], c, server.campaigns);
    }
    r := CancelResult(replies, seq(|answers|, i requires 0 <= i < |answers| => Answered(answers[i])));
    ListsGone(plan.lists, r.lists, server.lists);
  }

  /** All of the lists are gone, or none of them was touched. */
  predicate AllOrNone(lists: seq<ListId>, before: set<ListId>, after: set<ListId>) {
    after == before || forall l :: l in lists ==> l !in after
  }

  /** The same of the lists of a test. */
  predicate TestListsAllOrNone(test: Test, before: set<ListId>, after: set<ListId>) {
    after == before || ListsOf(test) !! after
  }

  lemma ForTest(test: Test, lists: seq<ListId>, before: set<ListId>, after: set<ListId>)
    requires forall l :: l in lists <==> l in ListsOf(test)
    ensures AllOrNone(lists, before, after) ==> TestListsAllOrNone(test, before, after)
  {
  }

  lemma ListsGone(lists: seq<ListId>, outcomes: seq<ListOutcome>, left: set<ListId>)
    requires |outcomes| == |lists|
    requires forall i :: 0 <= i < |lists| ==>
               outcomes[i].Answered? && (outcomes[i].reply.Error? || lists[i] !in left)
    ensures Answered(Error) !in outcomes ==> forall l :: l in lists ==> l !in left
  {
    forall l | l in lists && Answered(Error) !in outcomes ensures l !in left {
      var i :| 0 <= i < |lists| && lists[i] == l;
      assert outcomes[i] in outcomes;
    }
  }

  lemma OnlyShrinks(a: Campaigns, b: Campaigns)
    requires Evolves(a, b)
    ensures b.Keys <= a.Keys
  {
  }

  lemma WatchedAreGone(plan: Plan, replies: seq<Reply>, c: Campaigns)
    requires |plan.actions| == |replies| && !Survivors(plan, replies)
    requires forall i :: 0 <= i < |replies| ==> Shows(plan.actions[i], replies[i], c)
    ensures Watched(plan) !! c.Keys
  {
    DeletedAreGone(plan.actions, replies, c);
    forall a | a in plan.actions && a.DeleteIt? ensures a.id !in c {
      var i :| 0 <= i < |plan.actions| && plan.actions[i] == a;
      assert replies[i] in replies;
    }
  }

  // ---------------------------------------------------------------------------------
  // Stopping a test
  // ---------------------------------------------------------------------------------

  function FirstOccurrences(s: seq<CampaignId>): (r: seq<CampaignId>)
    ensures Distinct(r) && forall x :: x in r <==> x in s
    ensures Distinct(s) ==> r == s
  {
    if s == [] then []
    else
      var n := |s| - 1;
      var r := FirstOccurrences(s[..n]);
      assert s == s[..n] + [s[n]];
      if s[n] in r then r else r + [s[n]]
  }

  /** The backing campaigns and the winner. */
  function CampaignsOf(test: Test): set<CampaignId> {
    (set id | id in test.campaigns) + if test.winner.Some? then {test.winner.value} else {}
  }

  /** What a stop does when nothing interferes: running campaigns are cancelled, unsent ones deleted, others kept. */
  ghost predicate Stopped(test: Test, deleteTerminal: bool, before: Campaigns, after: Campaigns) {
    forall id :: CalmLookup(test, deleteTerminal, before, after, id)
  }

  predicate CalmLookup(test: Test, deleteTerminal: bool, before: Campaigns, after: Campaigns, id: CampaignId) {
    Lookup(after, id) ==
      if id !in test.campaigns || id !in before then Lookup(before, id)
      else if before[id] == Running then Some(Cancelled)
      else if Terminal(before[id]) && !deleteTerminal then Some(before[id])
      else None
  }

  /** Schedules for the three concurrent phases. */
  predicate Schedules(test: Test, fetch: seq<nat>, act: seq<nat>, lists: seq<nat>) {
    && Schedule(fetch, |FirstOccurrences(test.campaigns)|)
    && Schedule(act, |test.campaigns|)
    && Schedule(lists, |ListsOf(test)|)
  }

  method CancelAbTest(server: Server, test: Test, deleteTerminal: bool, fetch: seq<nat>, act: seq<nat>, lists: seq<nat>)
    returns (r: CancelResult, hadFetchFailures: bool)
    requires Schedules(test, fetch, act, lists)
    modifies server
    ensures Evolves(old(server.campaigns), server.campaigns)
    // An authoritative result settles every backing campaign.
    ensures !AnyFailed(r) && !hadFetchFailures ==>
              forall id :: id in test.campaigns ==> Settled(server.campaigns, id)
    // Whatever the outcome, no list is deleted while a backing or winner campaign exists.
    ensures old(server.listDeletions) <= server.listDeletions
    ensures NoneReferred(server.listDeletions, |old(server.listDeletions)|, CampaignsOf(test))
    // Unless something failed, the test's lists are all gone or none was touched.
    ensures !AnyFailed(r) ==> TestListsAllOrNone(test, old(server.lists), server.lists)
    // Without interference the cancel succeeds and does exactly this.
    ensures old(server.Calm()) && Distinct(test.campaigns) ==>
              && !AnyFailed(r) && !hadFetchFailures
              && Stopped(test, deleteTerminal, old(server.campaigns), server.campaigns)
    ensures old(server.Calm()) && Distinct(test.campaigns) && Unsent(test, deleteTerminal, old(server.campaigns)) ==>
              server.lists == old(server.lists) - ListsOf(test)
  {
    hide Schedule, Evolves, Carried, Stopped, Reliable, Accurate, CancelsRunning, Survivors, Shows, DistinctIds,
         ActionFor, Blocks, NoneReferred, Distinct, Unsent, AllOrNone, TestListsAllOrNone, PlanFits, ListsOf,
         CampaignsOf, Watched, LogWithin, AnyFailed;
    var ids := FirstOccurrences(test.campaigns);
    var seen, unobservable := FetchStatuses(server, ids, fetch);
    ghost var c, calm := server.campaigns, old(server.Calm()) && Distinct(test.campaigns);
    var plan := PlanCancel(test, seen, DefaultOptions(deleteTerminal));
    SameLength(plan.lists, ListsOf(test));
    if calm {
      CalmPlan(test, seen, deleteTerminal, c, plan.actions);
    }
    hadFetchFailures := |unobservable| > 0;
    r := ExecutePlan(server, plan, act, lists);
    ForTest(test, plan.lists, old(server.lists), server.lists);
    EvolvesKeeps(old(server.campaigns), c, server.campaigns);
    WatchedCovers(test, seen, deleteTerminal, plan, c);
    LogAvoids(server.listDeletions, |old(server.listDeletions)|, test, plan, c.Keys);
    if !AnyFailed(r) && !hadFetchFailures {
      NoErrors(r);
      AllSettled(test, seen, deleteTerminal, plan.actions, r.campaigns, c, server.campaigns);
    }
    if calm {
      CalmStop(test, seen, deleteTerminal, c, server.campaigns, plan.actions, act);
      if Unsent(test, deleteTerminal, c) {
        NoErrors(r);
        NothingBlocks(test, seen, deleteTerminal, plan, r.campaigns, c);
        assert ListsOf(test) == set l | l in plan.lists;
      }
    }
  }

  /** No campaign is left for its history: there is no winner, and nothing is running or kept as terminal. */
  predicate Unsent(test: Test, deleteTerminal: bool, c: Campaigns) {
    && test.winner.None?
    && forall id :: id in test.campaigns && id in c ==> c[id] != Running && (Terminal(c[id]) ==> deleteTerminal)
  }

  lemma NoErrors(r: CancelResult)
    requires !AnyFailed(r)
    ensures Error !in r.campaigns
  {
  }

  lemma NothingBlocks(test: Test, seen: Readings, deleteTerminal: bool, plan: Plan, replies: seq<Reply>, c: Campaigns)
    requires Accurate(seen, c) && Unsent(test, deleteTerminal, c)
    requires forall id :: id in test.campaigns ==> id in seen
    requires forall id :: id in plan.blocking <==>
               (id in test.campaigns && Blocks(seen, id, DefaultOptions(deleteTerminal))) || test.winner == Some(id)
    requires |plan.actions| == |replies| && Error !in replies
    ensures !Survivors(plan, replies)
  {
  }

  lemma {:induction false} SameLength<T>(s: seq<T>, xs: set<T>)
    requires Distinct(s) && forall x :: x in s <==> x in xs
    ensures |s| == |xs|
  {
    if s == [] {
      assert xs == {};
    } else {
      var n := |s| - 1;
      assert s == s[..n] + [s[n]];
      SameLength(s[..n], xs - {s[n]});
    }
  }

  /** A campaign is in the plan with the action its reading calls for. */
  ghost predicate Planned(test: Test, seen: Readings, deleteTerminal: bool, actions: seq<Action>) {
    && |actions| == |test.campaigns|
    && forall i :: 0 <= i < |actions| ==>
         actions[i] == ActionFor(seen, test.campaigns[i], DefaultOptions(deleteTerminal))
  }

  lemma CalmPlan(test: Test, seen: Readings, deleteTerminal: bool, c: Campaigns, actions: seq<Action>)
    requires Planned(test, seen, deleteTerminal, actions) && Accurate(seen, c) && Distinct(test.campaigns)
    ensures DistinctIds(actions) && CancelsRunning(c, actions)
  {
  }

  /** Every backing or winner campaign was gone when it was read, or list deletions wait for it. */
  lemma WatchedCovers(test: Test, seen: Readings, deleteTerminal: bool, plan: Plan, c: Campaigns)
    requires Planned(test, seen, deleteTerminal, plan.actions) && Reliable(seen, c)
    requires forall id :: id in plan.blocking <==>
               (id in test.campaigns && Blocks(seen, id, DefaultOptions(deleteTerminal))) || test.winner == Some(id)
    ensures forall id :: id in CampaignsOf(test) ==> id in Watched(plan) || id !in c
  {
    forall id | id in test.campaigns && !Blocks(seen, id, DefaultOptions(deleteTerminal))
      ensures id in Watched(plan) || id !in c
    {
      var i :| 0 <= i < |test.campaigns| && test.campaigns[i] == id;
      assert plan.actions[i] in plan.actions;
    }
  }

  lemma LogAvoids(log: seq<set<CampaignId>>, from: nat, test: Test, plan: Plan, present: set<CampaignId>)
    requires NoneReferred(log, from, Watched(plan)) && LogWithin(log, from, present)
    requires forall id :: id in CampaignsOf(test) ==> id in Watched(plan) || id !in present
    ensures NoneReferred(log, from, CampaignsOf(test))
  {
    hide CampaignsOf, Watched;
  }

  lemma AllSettled(test: Test, seen: Readings, deleteTerminal: bool, actions: seq<Action>, replies: seq<Reply>,
                   c: Campaigns, last: Campaigns)
    requires Planned(test, seen, deleteTerminal, actions) && Reliable(seen, c) && Evolves(c, last)
    requires |replies| == |actions| && Error !in replies
    requires forall i :: 0 <= i < |actions| ==> Shows(actions[i], replies[i], last)
    requires forall id :: id in test.campaigns ==> id in seen && !seen[id].Unreadable?
    ensures forall id :: id in test.campaigns ==> Settled(last, id)
  {
    forall id | id in test.campaigns ensures Settled(last, id) {
      var i :| 0 <= i < |test.campaigns| && test.campaigns[i] == id;
      assert replies[i] in replies;
      assert Shows(actions[i], replies[i], last);
    }
  }

  /** What the action for an accurately read campaign makes of it. */
  lemma CalmCell(seen: Readings, deleteTerminal: bool, c: Campaigns, id: CampaignId)
    requires id in seen && seen[id] == if id in c then Seen(c[id]) else Gone
    ensures Lookup(ActOn(c, ActionFor(seen, id, DefaultOptions(deleteTerminal))), id) ==
      if id !in c then None
      else if c[id] == Running then Some(Cancelled)
      else if Terminal(c[id]) && !deleteTerminal then Some(c[id])
      else None
  {
  }

  lemma CalmStop(test: Test, seen: Readings, deleteTerminal: bool, c: Campaigns, last: Campaigns,
                 actions: seq<Action>, order: seq<nat>)
    requires Planned(test, seen, deleteTerminal, actions) && Accurate(seen, c) && Schedule(order, |actions|)
    requires forall id :: id in test.campaigns ==> id in seen
    requires Carried(c, last, InOrder(actions, order))
    ensures Stopped(test, deleteTerminal, c, last)
  {
    hide ActOn;
    var acts, opts := InOrder(actions, order), DefaultOptions(deleteTerminal);
    assert forall k :: 0 <= k < |acts| ==> acts[k].id == test.campaigns[order[k]];
    hide ActionFor, DefaultOptions;
    forall id | id in test.campaigns ensures Lookup(last, id) == Lookup(ActOn(c, ActionFor(seen, id, opts)), id) {
      var i :| 0 <= i < |test.campaigns| && test.campaigns[i] == id;
      assert i in order;
      var k :| 0 <= k < |order| && order[k] == i;
      assert acts[k] == actions[i];
    }
    forall id | id in test.campaigns ensures CalmLookup(test, deleteTerminal, c, last, id) {
      CalmCell(seen, deleteTerminal, c, id);
    }
    forall id | id !in test.campaigns ensures Lookup(last, id) == Lookup(c, id) {
      assert !Concerns(acts, id);
    }
  }

  datatype StopError = StillProvisioning | NotStoppable | NonAuthoritative

  /** The stored test. */
  class Experiment {
    const test: Test
    const pendingCreate: bool
    var status: TestStatus

    constructor (test: Test, pendingCreate: bool, status: TestStatus)
      ensures this.test == test && this.pendingCreate == pendingCreate && this.status == status
    {
      this.test, this.pendingCreate, this.status := test, pendingCreate, status;
    }

    /**
     A stop that succeeds leaves every backing campaign deleted or terminal; a stop that does not leaves the stored
     status as it was.  No list is deleted while a backing or winner campaign exists.
     */
    method Stop(server: Server, fetch: seq<nat>, act: seq<nat>, lists: seq<nat>) returns (r: Result<(), StopError>)
      requires Schedules(test, fetch, act, lists)
      modifies this, server
      ensures r == Err(StillProvisioning) <==> pendingCreate
      ensures r == Err(NotStoppable) <==> !pendingCreate && old(status) !in {TestRunning, TestScheduled, TestCancelled}
      ensures status == if r.Ok? then TestCancelled else old(status)
      ensures pendingCreate || old(status) !in {TestRunning, TestScheduled} ==> unchanged(server)
      ensures Evolves(old(server.campaigns), server.campaigns)
      ensures r.Ok? && old(status) != TestCancelled ==>
                forall id :: id in test.campaigns ==> Settled(server.campaigns, id)
      ensures NoneReferred(server.listDeletions, |old(server.listDeletions)|, CampaignsOf(test))
      ensures r.Ok? ==> TestListsAllOrNone(test, old(server.lists), server.lists)
      ensures !pendingCreate && old(server.Calm() && status in {TestRunning, TestScheduled}) ==>
                Distinct(test.campaigns) ==> r.Ok? && Stopped(test, false, old(server.campaigns), server.campaigns)
    {
      if pendingCreate {
        return Err(StillProvisioning);
      }
      if status == TestCancelled {
        return Ok(());
      }
      if status != TestRunning && status != TestScheduled {
        return Err(NotStoppable);
      }
      var result, hadFetchFailures := CancelAbTest(server, test, false, fetch, act, lists);
      if AnyFailed(result) || hadFetchFailures {
        return Err(NonAuthoritative);
      }
      status := TestCancelled;
      r := Ok(());
    }
  }

  /** Whatever the server does after a successful stop, no backing campaign can send again. */
  lemma {:induction false} SettledForever(a: Campaigns, later: seq<Campaigns>, id: CampaignId, k: nat)
    requires later != [] && Evolves(a, later[0]) && k < |later|
    requires forall i :: 0 < i < |later| ==> Evolves(later[i - 1], later[i])
    requires Settled(a, id)
    ensures Settled(later[k], id) && (id !in a ==> id !in later[k])
  {
    if k > 0 {
      SettledForever(a, later, id, k - 1);
    }
  }
}
