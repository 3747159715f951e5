/**
 What deploying a winner does to the status of a test (packages/abtest/src/abtest-service.ts): there is no check of the
 status, so a terminal one is final only under conditions that have nothing to do with it.
 */
module WinnerDeployment {
  import opened Prelude
  import opened Lifecycle

  /** What a deployment finds: the test's settings, the analysis (`None` when it throws), and the remote integration. */
  datatype Situation = Situation(
    holdoutMode: bool, holdoutList: Option<ListId>, autoDeployWinner: bool, analysis: Option<Option<string>>,
    integration: bool)

  /** How the remote requests end: the created campaign (`None` when creation throws) and whether the launch works. */
  datatype Remote = Remote(created: Option<CampaignId>, launched: bool)

  datatype DeployError = NotHoldout | NoHoldoutGroup | AnalysisFailed | NoWinner | NoIntegration | RemoteFailed

  predicate HasHoldoutList(t: Situation) {
    t.holdoutList.Some? && t.holdoutList.value != 0
  }

  /** The deployment gets as far as its first request. */
  predicate Ready(t: Situation) {
    t.holdoutMode && HasHoldoutList(t) && t.analysis.Some? && t.analysis.value.Some? && t.integration
  }

  predicate Succeeds(t: Situation, remote: Remote) {
    remote.created.Some? && (t.autoDeployWinner ==> remote.launched)
  }

  /** Statuses that a test is meant to end in. */
  predicate Ended(s: TestStatus) {
    s.TestCompleted? || s.TestInconclusive? || s.TestCancelled? || s.TestFailed?
  }

  /** The status in memory after a deployment. */
  function StatusAfter(s: TestStatus, t: Situation, remote: Remote): TestStatus {
    if !Ready(t) then s else if Succeeds(t, remote) then TestCompleted else TestAnalyzing
  }

  /** The status in the store after a deployment: a deployment that throws commits nothing. */
  function StoredAfter(s: TestStatus, t: Situation, remote: Remote): TestStatus {
    if Ready(t) && Succeeds(t, remote) then TestCompleted else s
  }

  class WinnerTest {
    var status: TestStatus
    var winnerCampaign: Option<CampaignId>
    var winnerVariant: Option<string>
    /** Every status written so far. */
    ghost var written: seq<TestStatus>

    constructor (status: TestStatus, winnerCampaign: Option<CampaignId>, winnerVariant: Option<string>)
      ensures this.status == status && written == []
      ensures this.winnerCampaign == winnerCampaign && this.winnerVariant == winnerVariant
    {
      this.status, this.winnerCampaign, this.winnerVariant, this.written := status, winnerCampaign, winnerVariant, [];
    }

    method SetStatus(s: TestStatus)
      modifies this`status, this`written
      ensures status == s && written == old(written) + [s]
    {
      status, written := s, written + [s];
    }

    /** A deployment in memory; whatever the status was, it passes through deploying to completed or to analyzing. */
    method Deploy(t: Situation, remote: Remote) returns (r: Result<CampaignId, DeployError>)
      modifies this
      ensures r.Ok? <==> Ready(t) && Succeeds(t, remote)
      ensures r.Ok? ==> t.autoDeployWinner ==> remote.launched
      ensures r == Err(RemoteFailed) <==> Ready(t) && !Succeeds(t, remote)
      ensures r == Err(RemoteFailed) ==> remote.created.None? || (t.autoDeployWinner && !remote.launched)
      ensures r == Err(NotHoldout) <==> !t.holdoutMode
      ensures r == Err(NoHoldoutGroup) <==> t.holdoutMode && t.holdoutList in {None, Some(0)}
      ensures status == StatusAfter(old(status), t, remote)
      ensures written == old(written) + if Ready(t) then [TestDeploying, status] else []
      ensures r.Ok? ==> remote.created == Some(r.value) == winnerCampaign && winnerVariant == t.analysis.value
      ensures r.Err? ==> winnerCampaign == old(winnerCampaign) && winnerVariant == old(winnerVariant)
    {
      if !t.holdoutMode {
        return Err(NotHoldout);
      }
      if !HasHoldoutList(t) {
        return Err(NoHoldoutGroup);
      }
      if t.analysis.None? {
        return Err(AnalysisFailed);
      }
      if t.analysis.value.None? {
        return Err(NoWinner);
      }
      if !t.integration {
        return Err(NoIntegration);
      }
      SetStatus(TestDeploying);
      if remote.created.None? || (t.autoDeployWinner && !remote.launched) {
        SetStatus(TestAnalyzing);
        return Err(RemoteFailed);
      }
      winnerCampaign, winnerVariant := remote.created, t.analysis.value;
      SetStatus(TestCompleted);
      r := Ok(remote.created.value);
    }

    /** A deployment through the store: it works on a copy, which is committed when nothing throws. */
    method DeployStored(t: Situation, remote: Remote) returns (r: Result<CampaignId, DeployError>)
      modifies this
      ensures r.Ok? <==> Ready(t) && Succeeds(t, remote)
      ensures status == StoredAfter(old(status), t, remote)
      ensures r.Ok? ==> remote.created == Some(r.value) == winnerCampaign && winnerVariant == t.analysis.value
      ensures r.Err? ==> unchanged(this)
    {
      var copy := new WinnerTest(status, winnerCampaign, winnerVariant);
      r := copy.Deploy(t, remote);
      if r.Ok? {
        winnerCampaign, winnerVariant := copy.winnerCampaign, copy.winnerVariant;
        SetStatus(copy.status);
      }
    }
  }

  /** In memory an ended status survives every outcome of a deployment exactly when no deployment is attempted. */
  lemma EndedInMemory(s: TestStatus, t: Situation)
    requires Ended(s)
    ensures (forall remote :: StatusAfter(s, t, remote) == s) <==> !Ready(t)
  {
    assert Ready(t) ==> StatusAfter(s, t, Remote(None, false)) == TestAnalyzing;
  }

  /** In the store it does exactly when none is attempted or the status is completed already. */
  lemma EndedInStore(s: TestStatus, t: Situation)
    requires Ended(s)
    ensures (forall remote :: StoredAfter(s, t, remote) == s) <==> !Ready(t) || s == TestCompleted
  {
    assert Ready(t) ==> StoredAfter(s, t, Remote(Some(1), true)) == TestCompleted;
  }

  /** A cancelled test with a holdout group and a winner becomes completed; a completed one falls back to analyzing. */
  method CancelledIsDeployed() returns (stored: TestStatus, inMemory: TestStatus)
    ensures stored == TestCompleted && inMemory == TestAnalyzing
  {
    var t := Situation(true, Some(1), false, Some(Some("variant_A")), true);
    var cancelled := new WinnerTest(TestCancelled, None, None);
    var r := cancelled.DeployStored(t, Remote(Some(9), false));
    stored := cancelled.status;
    var completed := new WinnerTest(TestCompleted, Some(9), Some("variant_A"));
    r := completed.Deploy(t, Remote(None, false));
    inMemory := completed.status;
  }
}
