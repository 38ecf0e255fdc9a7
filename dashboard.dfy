/**
 * The state of the dashboard page: the task list, the meeting history and the
 * name of the loaded file, with the handlers that replace them. Each handler
 * is tied to the function of the `Tasks` or `SpreadsheetImport` module that
 * says what the new state is; the properties are proved about those functions.
 */
module Dashboard {
  import opened Tasks
  import opened SpreadsheetImport

  /**
   * The `forEach` of a manual edit: walks the updates in order and collects
   * one manual entry for every field other than the trail whose value differs
   * from the task's current one. The k-th entry's Date is the object `refs + k`.
   */
  method CollectAuditEntries(task: Task, updates: seq<Update>, reason: string, nowMs: nat, refs: nat)
    returns (entries: seq<AuditEntry>)
    ensures entries == ChangeEntries(task, updates, reason, nowMs, refs)
    ensures |entries| <= |updates|
    ensures forall e :: e in entries ==> e.kind == Manual && e.reason == Some(reason)
  {
    entries := [];
    var i := 0;
    while i < |updates|
      invariant 0 <= i <= |updates|
      invariant entries == ChangeEntries(task, updates[..i], reason, nowMs, refs)
    {
      var (field, newValue) := updates[i];
      assert updates[..i + 1][..i] == updates[..i] && updates[..i + 1][i] == (field, newValue);
      if Differs(task, field, newValue) {
        entries := entries + [ManualEntry(task, field, newValue, reason, nowMs, refs + |entries|)];
      }
      i := i + 1;
    }
    assert updates[..i] == updates;
  }

  /** File input: nothing chosen, or a file name with what the spreadsheet library read from it. */
  datatype Upload = NoFile | File(name: string, book: Workbook)

  class ProjectManager {
    var tasks: seq<Task>
    var meetings: seq<Meeting>
    var fileName: string

    constructor ()
      ensures tasks == [] && meetings == [] && fileName == ""
    {
      tasks := [];
      meetings := [];
      fileName := "";
    }

    /** `loadSampleData`. */
    method LoadSampleData()
      modifies this
      ensures tasks == SampleTasks() && fileName == "sample-project.xlsx"
      ensures meetings == old(meetings)
    {
      tasks := SampleTasks();
      fileName := "sample-project.xlsx";
    }

    /**
     * `handleFileUpload` followed by the reader's `onload`: no file changes
     * nothing; otherwise the name is kept and the tasks are replaced by the
     * imported rows, or by the sample project when the file cannot be read.
     */
    method HandleFileUpload(upload: Upload, nowMs: nat, refs: nat, toTime: Value -> int)
      modifies this
      ensures upload.NoFile? ==> tasks == old(tasks) && fileName == old(fileName)
      ensures upload.File? ==> fileName == upload.name && tasks == ImportedTasks(upload.book, nowMs, refs, toTime)
      ensures meetings == old(meetings)
    {
      match upload
      case NoFile =>
      case File(name, book) =>
        fileName := name;
        tasks := ImportedTasks(book, nowMs, refs, toTime);
    }

    /**
     * `handleMeetingComplete`: the meeting joins the end of the history and
     * its proposals are attached to the tasks they name.
     */
    method HandleMeetingComplete(meeting: Meeting)
      modifies this
      ensures meetings == old(meetings) + [meeting]
      ensures tasks == AttachProposals(old(tasks), meeting.taskProposals)
      ensures fileName == old(fileName)
    {
      meetings := meetings + [meeting];
      tasks := AttachProposals(tasks, meeting.taskProposals);
    }

    /**
     * `handleTaskUpdate`: every task whose id is `taskId` gets the manual edit;
     * the others, the order and the length stay as they were.
     */
    method HandleTaskUpdate(taskId: string, updates: seq<Update>, reason: string, nowMs: nat, refs: nat)
      modifies this
      ensures tasks == UpdateTasks(old(tasks), taskId, updates, reason, nowMs, refs)
      ensures meetings == old(meetings) && fileName == old(fileName)
    {
      var prev := tasks;
      var next: seq<Task> := [];
      var i := 0;
      while i < |prev|
        invariant 0 <= i <= |prev|
        invariant next == UpdateTasks(prev, taskId, updates, reason, nowMs, refs)[..i]
        invariant unchanged(this)
      {
        var task := prev[i];
        if task.id == Text(taskId) {
          var entries := CollectAuditEntries(task, updates, reason, nowMs, refs + i * |updates|);
          task := Merge(task, updates).(auditTrail := task.auditTrail + entries, proposedChanges := None);
        }
        next := next + [task];
        i := i + 1;
      }
      tasks := next;
    }
  }

  /** The edited sample task "2": progress 90, one new entry, nothing else changed. */
  lemma SampleTaskTwoEdit(nowMs: nat, base: nat)
    ensures var sample := SampleTasks()[1];
            var updates := [(Progress, Number(90)), (Status, Text("In Progress"))];
            UpdatedTask(sample, updates, "Weekly review", nowMs, base)
            == sample.(progress := Number(90),
                       auditTrail := sample.auditTrail + [ManualEntry(sample, Progress, Number(90), "Weekly review", nowMs, base)])
  {
    var sample := SampleTasks()[1];
    var updates := [(Progress, Number(90)), (Status, Text("In Progress"))];
    assert sample.status == Text("In Progress") && sample.progress == Number(80) && sample.proposedChanges == None;
    assert updates[..1] == [(Progress, Number(90))] && updates[..1][..0] == [];
    assert ChangeEntries(sample, updates[..1], "Weekly review", nowMs, base)
        == [ManualEntry(sample, Progress, Number(90), "Weekly review", nowMs, base)];
    assert !Differs(sample, Status, Text("In Progress"));
    assert Merge(sample, updates[..1]) == sample.(progress := Number(90));
  }

  /** Raising the progress of sample task "2" from 80 to 90 logs one entry; its unchanged status logs none. */
  lemma SampleProgressEdit(nowMs: nat, refs: nat)
    ensures var updates := [(Progress, Number(90)), (Status, Text("In Progress"))];
            var r := UpdateTasks(SampleTasks(), "2", updates, "Weekly review", nowMs, refs);
            && r[1].id == Text("2")
            && r[1].auditTrail == SampleTasks()[1].auditTrail
                                  + [ManualEntry(SampleTasks()[1], Progress, Number(90), "Weekly review", nowMs, refs + 2)]
            && r[0] == SampleTasks()[0] && r[2] == SampleTasks()[2]
  {
    var ts := SampleTasks();
    var updates := [(Progress, Number(90)), (Status, Text("In Progress"))];
    UpdateTasksFrame(ts, "2", updates, "Weekly review", nowMs, refs);
    SampleTaskTwoEdit(nowMs, refs + 1 * |updates|);
    assert ts[0].id == Text("1") && ts[1].id == Text("2") && ts[2].id == Text("3");
  }

  /** Loading the sample, editing a task and completing a meeting, as a page session would. */
  method SampleSession(nowMs: nat, refs: nat, meeting: Meeting) returns (trail: seq<AuditEntry>)
    requires forall k :: 0 <= k < |meeting.taskProposals| ==> meeting.taskProposals[k].taskId != "2"
    ensures trail == SampleTasks()[1].auditTrail
                     + [ManualEntry(SampleTasks()[1], Progress, Number(90), "Weekly review", nowMs, refs + 2)]
  {
    var page := new ProjectManager();
    page.LoadSampleData();
    page.HandleTaskUpdate("2", [(Progress, Number(90)), (Status, Text("In Progress"))], "Weekly review", nowMs, refs);
    SampleProgressEdit(nowMs, refs);
    var edited := page.tasks[1];
    page.HandleMeetingComplete(meeting);
    assert FindProposal(meeting.taskProposals, edited.id).None?;
    trail := page.tasks[1].auditTrail;
  }
}
