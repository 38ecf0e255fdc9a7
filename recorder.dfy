/**
 * The meeting recorder: a title field, a start/pause/stop control driven by a
 * one-second timer, and the meeting it hands to the dashboard when recording
 * stops. The timer is the `Tick` method. The clock (`Date.now()`) and the
 * locale date text are parameters, and each `new Date()` takes a fresh
 * identity from the caller's supply `refs`.
 */
module Recorder {
  import opened JsText
  import opened Tasks

  /** `formatTime`: whole minutes padded to two digits, a colon, seconds padded to two digits. */
  function FormatTime(seconds: nat): string
  {
    PadStart(NatToString(seconds / 60), 2, '0') + ":" + PadStart(NatToString(seconds % 60), 2, '0')
  }

  /**
   * The clock text reads back as the time it shows: the part before the colon
   * is the minutes, the last two digits are the seconds (below 60), and any
   * time under 100 minutes is shown in exactly five characters.
   */
  lemma FormatTimeReadsBack(seconds: nat)
    ensures var r := FormatTime(seconds);
            && |r| >= 5 && r[|r| - 3] == ':'
            && AllDigits(r[..|r| - 3]) && AllDigits(r[|r| - 2..])
            && ParseDigits(r[..|r| - 3]) * 60 + ParseDigits(r[|r| - 2..]) == seconds
            && ParseDigits(r[|r| - 2..]) < 60
            && (seconds < 6000 ==> |r| == 5)
  {
    var m := PadStart(NatToString(seconds / 60), 2, '0');
    var s := PadStart(NatToString(seconds % 60), 2, '0');
    PaddedField(seconds / 60);
    PaddedField(seconds % 60);
    var r := m + ":" + s;
    assert r[..|r| - 3] == m;
    assert r[|r| - 2..] == s;
  }

  /** A number padded to two digits: all digits, reads back, and two characters when below 100. */
  lemma PaddedField(n: nat)
    ensures var p := PadStart(NatToString(n), 2, '0');
            && |p| >= 2 && AllDigits(p) && ParseDigits(p) == n
            && (n < 100 ==> |p| == 2)
  {
    NatToStringShort(n);
    ZeroPaddedNumber(n, 2);
  }

  /** 25 January 2024, midnight UTC, as `new Date("2024-01-25")` reads it. */
  const Jan25: int := 1_706_140_800_000

  /**
   * The two proposals the simulated analysis always returns: tasks "1.2" and
   * "1.3", stamped with the meeting's id. Their Dates are new objects, taken
   * in source order from `refs` on: the first timestamp, the proposed end
   * date, the second timestamp.
   */
  function MockProposals(nowMs: nat, refs: nat): (ps: seq<TaskProposal>)
    ensures |ps| == 2
    ensures forall k :: 0 <= k < |ps| ==> ps[k].meetingId == "meeting-" + NatToString(nowMs)
    ensures forall k :: 0 <= k < |ps| ==> 0.0 <= ps[k].confidence <= 1.0
    ensures forall k :: 0 <= k < |ps| ==> refs <= ps[k].timestamp.ref < refs + 3 && ps[k].timestamp.time == nowMs
    ensures ps[0].timestamp != ps[1].timestamp
  {
    var meetingId := "meeting-" + NatToString(nowMs);
    [ TaskProposal("proposal-1", "1.2", Some("Completed"), Some(100), None,
                   "Charter development mentioned as nearly complete in meeting", 0.85, meetingId, Date(refs, nowMs)),
      TaskProposal("proposal-2", "1.3", Some("Delayed"), Some(40), Some(Date(refs + 1, Jan25)),
                   "Stakeholder scheduling conflicts mentioned causing delays", 0.92, meetingId, Date(refs + 2, nowMs)) ]
  }

  /** `meetingTitle || fallback`, with the fallback built from the locale date text. */
  function MeetingTitle(entered: string, localeDate: string): (r: string)
    ensures r != ""
    ensures entered != "" ==> r == entered
    ensures entered == "" ==> r == "Project Meeting - " + localeDate
  {
    Or(Text(entered), Text("Project Meeting - " + localeDate)).s
  }

  /**
   * The meeting `stopRecording` emits for the title and elapsed seconds at that
   * moment; its date is the fourth new Date of the stop, `refs + 3`.
   */
  function RecordedMeeting(title: string, elapsed: nat, nowMs: nat, refs: nat,
                           localeDate: string, transcript: string, summary: string): (m: Meeting)
    ensures m.duration == elapsed && m.date.time == nowMs && refs <= m.date.ref
    ensures m.title == MeetingTitle(title, localeDate)
    ensures title != "" ==> m.title == title
    ensures m.id == "meeting-" + NatToString(nowMs)
    ensures forall k :: 0 <= k < |m.taskProposals| ==>
              m.taskProposals[k].meetingId == m.id && m.taskProposals[k].timestamp != m.date
  {
    Meeting("meeting-" + NatToString(nowMs), MeetingTitle(title, localeDate), Date(refs + 3, nowMs), elapsed,
            transcript, summary, MockProposals(nowMs, refs))
  }

  /**
   * The mock proposals name tasks "1.2" and "1.3", which the sample project
   * does not have, so completing a recorded meeting attaches nothing to it.
   */
  lemma MockProposalsMatchNoSampleTask(nowMs: nat, refs: nat)
    ensures AttachProposals(SampleTasks(), MockProposals(nowMs, refs)) == SampleTasks()
  {
    var ts := SampleTasks();
    var ps := MockProposals(nowMs, refs);
    AttachProposalsFacts(ts, ps);
    assert ts[0].id == Text("1") && ts[1].id == Text("2") && ts[2].id == Text("3");
    assert ps[0].taskId == "1.2" && ps[1].taskId == "1.3";
  }

  class MeetingRecorder {
    var isRecording: bool
    var isPaused: bool
    var recordingTime: nat
    var meetingTitle: string
    /** Whether `window.recordingInterval` holds a running interval. */
    var timerActive: bool

    /**
     * What the controls guarantee: only a recording can be paused, the timer
     * runs exactly while recording, and a recording always has a title with
     * some non-space character, since Start needs one and the title field is
     * disabled while recording.
     */
    predicate Valid()
      reads this
    {
      (isPaused ==> isRecording) && (timerActive <==> isRecording)
      && (isRecording ==> !AllSpace(meetingTitle))
    }

    /** Whether the Start button is shown and enabled. */
    predicate CanStart()
      reads this
    {
      !isRecording && Trim(meetingTitle) != ""
    }

    constructor ()
      ensures Valid()
      ensures !isRecording && !isPaused && recordingTime == 0 && meetingTitle == "" && !timerActive
    {
      isRecording := false;
      isPaused := false;
      recordingTime := 0;
      meetingTitle := "";
      timerActive := false;
    }

    /** Typing in the title field, which is enabled only while not recording. */
    method SetTitle(title: string)
      requires Valid() && !isRecording
      modifies this
      ensures Valid()
      ensures meetingTitle == title
      ensures isRecording == old(isRecording) && isPaused == old(isPaused)
      ensures recordingTime == old(recordingTime) && timerActive == old(timerActive)
    {
      meetingTitle := title;
    }

    /** `startRecording`: recording on, pause off, a timer started; the elapsed time is not reset. */
    method Start()
      requires Valid() && CanStart()
      modifies this
      ensures Valid()
      ensures isRecording && !isPaused && timerActive
      ensures recordingTime == old(recordingTime) && meetingTitle == old(meetingTitle)
    {
      TrimEmpty(meetingTitle);
      isRecording := true;
      isPaused := false;
      timerActive := true;
    }

    /** `pauseRecording`: flips the pause flag and nothing else; the timer keeps running. */
    method Pause()
      requires Valid() && isRecording
      modifies this
      ensures Valid()
      ensures isPaused == !old(isPaused)
      ensures isRecording == old(isRecording) && timerActive == old(timerActive)
      ensures recordingTime == old(recordingTime) && meetingTitle == old(meetingTitle)
    {
      isPaused := !isPaused;
    }

    /** One firing of the interval: a second is added whenever the timer runs, paused or not. */
    method Tick()
      requires Valid()
      modifies this
      ensures Valid()
      ensures recordingTime == if old(timerActive) then old(recordingTime) + 1 else old(recordingTime)
      ensures isRecording == old(isRecording) && isPaused == old(isPaused)
      ensures timerActive == old(timerActive) && meetingTitle == old(meetingTitle)
    {
      if timerActive {
        recordingTime := recordingTime + 1;
      }
    }

    /**
     * `stopRecording`: recording and pause off, the timer cleared, the meeting
     * emitted with the entered title and the elapsed seconds, then the time
     * and the title reset.
     */
    method Stop(nowMs: nat, refs: nat, localeDate: string, transcript: string, summary: string)
      returns (m: Meeting)
      requires Valid() && isRecording
      modifies this
      ensures Valid()
      ensures m == RecordedMeeting(old(meetingTitle), old(recordingTime), nowMs, refs,
                                   localeDate, transcript, summary)
      ensures m.title == old(meetingTitle) && m.duration == old(recordingTime)
      ensures !isRecording && !isPaused && !timerActive
      ensures recordingTime == 0 && meetingTitle == ""
    {
      isRecording := false;
      isPaused := false;
      timerActive := false;
      assert meetingTitle != "";
      m := RecordedMeeting(meetingTitle, recordingTime, nowMs, refs, localeDate, transcript, summary);
      recordingTime := 0;
      meetingTitle := "";
    }
  }

  /**
   * A recording that is paused after `before` seconds and resumed after
   * `paused` more, then runs `after` seconds: the meeting keeps the title and
   * its duration counts the paused seconds too.
   */
  method RecordWithPause(title: string, before: nat, paused: nat, after: nat,
                         nowMs: nat, refs: nat, localeDate: string,
                         transcript: string, summary: string)
    returns (m: Meeting)
    requires Trim(title) != ""
    ensures m.title == title
    ensures m.duration == before + paused + after
  {
    var rec := new MeetingRecorder();
    rec.SetTitle(title);
    rec.Start();
    var phase := 0;
    while phase < 3
      invariant 0 <= phase <= 3
      invariant rec.Valid() && rec.isRecording && rec.meetingTitle == title
      invariant rec.isPaused <==> phase == 1
      invariant rec.recordingTime == (if phase >= 1 then before else 0)
                                     + (if phase >= 2 then paused else 0)
                                     + (if phase >= 3 then after else 0)
    {
      var seconds := if phase == 0 then before else if phase == 1 then paused else after;
      var start := rec.recordingTime;
      var i := 0;
      while i < seconds
        invariant 0 <= i <= seconds
        invariant rec.Valid() && rec.isRecording && rec.meetingTitle == title
        invariant rec.isPaused <==> phase == 1
        invariant rec.recordingTime == start + i
      {
        rec.Tick();
        i := i + 1;
      }
      if phase < 2 {
        rec.Pause();
      }
      phase := phase + 1;
    }
    m := rec.Stop(nowMs, refs, localeDate, transcript, summary);
  }
}
