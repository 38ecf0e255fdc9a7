/**
 * The "Latest Meeting Summary" card: the newest meeting of the history, the
 * counts of its proposals by proposed status, and the overall health badge
 * derived from how many proposals report a setback.
 */
module Summary {
  import opened Tasks
  import opened Recorder

  datatype Health = OnTrack | MinorIssues | AtRisk

  /** `meetings[meetings.length - 1]`; the page shows the card only when there is a meeting. */
  function LatestMeeting(ms: seq<Meeting>): Meeting
    requires |ms| > 0
  {
    ms[|ms| - 1]
  }

  /** The card after `handleMeetingComplete` shows the meeting just completed. */
  lemma LatestIsCompleted(ms: seq<Meeting>, m: Meeting)
    ensures LatestMeeting(ms + [m]) == m
  {
  }

  /** `taskProposals.filter(p => p.proposedStatus === status).length`. */
  function CountWithStatus(ps: seq<TaskProposal>, status: string): (n: nat)
    ensures n <= |ps|
  {
    if ps == [] then 0
    else CountWithStatus(ps[..|ps| - 1], status) + (if ps[|ps| - 1].proposedStatus == Some(status) then 1 else 0)
  }

  /** A proposal reporting a delay or a block. */
  predicate IsSetback(p: TaskProposal)
  {
    p.proposedStatus == Some("Delayed") || p.proposedStatus == Some("Blocked")
  }

  /** `delayedTasks` of `getOverallStatus`. */
  function SetbackCount(ps: seq<TaskProposal>): (n: nat)
    ensures n <= |ps|
  {
    if ps == [] then 0
    else SetbackCount(ps[..|ps| - 1]) + (if IsSetback(ps[|ps| - 1]) then 1 else 0)
  }

  /** The setbacks are exactly the delays plus the blockers the card lists beside them. */
  lemma {:induction false} SetbackIsDelaysPlusBlockers(ps: seq<TaskProposal>)
    ensures SetbackCount(ps) == CountWithStatus(ps, "Delayed") + CountWithStatus(ps, "Blocked")
  {
    if ps != [] {
      SetbackIsDelaysPlusBlockers(ps[..|ps| - 1]);
    }
  }

  /** No setback is counted exactly when no proposal is delayed or blocked. */
  lemma {:induction false} NoSetbackMeansNone(ps: seq<TaskProposal>)
    ensures SetbackCount(ps) == 0 <==> forall k :: 0 <= k < |ps| ==> !IsSetback(ps[k])
  {
    if ps != [] {
      var init := ps[..|ps| - 1];
      NoSetbackMeansNone(init);
      assert forall k :: 0 <= k < |init| ==> init[k] == ps[k];
    }
  }

  /** `getOverallStatus`, with `delayedTasks < totalProposals / 2` compared as numbers, not integers. */
  function OverallStatus(m: Meeting): Health
  {
    var total := |m.taskProposals|;
    var delayed := SetbackCount(m.taskProposals);
    if delayed == 0 then OnTrack
    else if (delayed as real) < (total as real) / 2.0 then MinorIssues
    else AtRisk
  }

  /** Comparing with half the total is comparing twice the count with the total. */
  lemma HalfComparison(d: nat, t: nat)
    ensures (d as real) < (t as real) / 2.0 <==> 2 * d < t
  {
    assert (t as real) / 2.0 * 2.0 == t as real;
  }

  /**
   * The badge, case by case: On Track when no proposal is a setback, Minor
   * Issues when some are but fewer than half, At Risk when at least half are.
   */
  lemma OverallStatusCases(m: Meeting)
    ensures var d := SetbackCount(m.taskProposals);
            var t := |m.taskProposals|;
            && (OverallStatus(m) == OnTrack <==> d == 0)
            && (OverallStatus(m) == MinorIssues <==> 0 < d && 2 * d < t)
            && (OverallStatus(m) == AtRisk <==> 0 < d && t <= 2 * d)
  {
    HalfComparison(SetbackCount(m.taskProposals), |m.taskProposals|);
  }

  /** A meeting with every proposal a setback is At Risk, whatever the number of proposals. */
  lemma AllSetbacksAtRisk(m: Meeting)
    requires |m.taskProposals| > 0
    requires forall k :: 0 <= k < |m.taskProposals| ==> IsSetback(m.taskProposals[k])
    ensures OverallStatus(m) == AtRisk
  {
    AllSetbacksCounted(m.taskProposals);
    OverallStatusCases(m);
  }

  lemma {:induction false} AllSetbacksCounted(ps: seq<TaskProposal>)
    requires forall k :: 0 <= k < |ps| ==> IsSetback(ps[k])
    ensures SetbackCount(ps) == |ps|
  {
    if ps != [] {
      AllSetbacksCounted(ps[..|ps| - 1]);
    }
  }

  /** `Math.round(duration / 60)`: the shown minutes are within half a minute of the duration. */
  function RoundedMinutes(seconds: nat): (mins: nat)
    ensures 60 * mins <= seconds + 30 && seconds + 30 < 60 * mins + 60
  {
    (seconds + 30) / 60
  }

  /** `Math.round(confidence * 100)`: the nearest whole percent, halves rounded up. */
  function ConfidencePercent(confidence: real): (pct: int)
    ensures pct as real - 0.5 <= confidence * 100.0 < pct as real + 0.5
  {
    (confidence * 100.0 + 0.5).Floor
  }

  /**
   * A recorded meeting always shows two tasks discussed, one delay and no
   * blocker, which is half its proposals: its badge is At Risk. Its
   * confidences show as 85% and 92%.
   */
  lemma RecordedMeetingAtRisk(title: string, elapsed: nat, nowMs: nat, refs: nat,
                              localeDate: string, transcript: string, summary: string)
    ensures var m := RecordedMeeting(title, elapsed, nowMs, refs, localeDate, transcript, summary);
            && |m.taskProposals| == 2
            && CountWithStatus(m.taskProposals, "Delayed") == 1
            && CountWithStatus(m.taskProposals, "Blocked") == 0
            && OverallStatus(m) == AtRisk
            && ConfidencePercent(m.taskProposals[0].confidence) == 85
            && ConfidencePercent(m.taskProposals[1].confidence) == 92
  {
    var m := RecordedMeeting(title, elapsed, nowMs, refs, localeDate, transcript, summary);
    var ps := m.taskProposals;
    assert ps[..1][..0] == [] && ps[..|ps| - 1] == ps[..1];
    assert ps[0].proposedStatus == Some("Completed") && ps[1].proposedStatus == Some("Delayed");
    assert SetbackCount(ps) == 1;
    OverallStatusCases(m);
  }
}
