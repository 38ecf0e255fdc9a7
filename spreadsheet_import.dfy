/**
 * The mapping from the rows of an uploaded spreadsheet to tasks. Reading the
 * file and converting the sheet to rows are library calls outside the model:
 * a row arrives as a map from column name to cell value, and a file the
 * library cannot read arrives as `Unreadable`.
 */
module SpreadsheetImport {
  import opened JsText
  import opened Tasks

  /** One object of `sheet_to_json`: a missing column reads as `undefined`. */
  type Row = map<string, Value>

  function Cell(row: Row, column: string): Value
  {
    if column in row then row[column] else Undefined
  }

  /** What the spreadsheet library makes of the uploaded file. */
  datatype Workbook = Parsed(rows: seq<Row>) | Unreadable

  const NameColumns: seq<string> := ["Task Name", "Name", "Task"]
  const ProgressColumns: seq<string> := ["Progress", "% Complete"]
  const AssigneeColumns: seq<string> := ["Assignee", "Resource"]

  /** The single audit entry every imported task starts with. */
  function ImportEntry(index: nat, now: Date): AuditEntry
  {
    AuditEntry("audit-" + NatToString(index + 1), now, System, "imported", Null,
               Text("imported from Excel"), Some("Initial import"), None)
  }

  /**
   * The three Date objects row `index` creates: its start date, its end date
   * and its audit timestamp, each a `new Date(...)` of its own.
   */
  function StartRef(refs: nat, index: nat): nat { refs + 3 * index }
  function EndRef(refs: nat, index: nat): nat { refs + 3 * index + 1 }
  function EntryRef(refs: nat, index: nat): nat { refs + 3 * index + 2 }

  /**
   * The task built from row `index` (counted from 0). `nowMs` is the clock at
   * the import, `refs` the first identity free for the import's new Dates, and
   * `toTime` the time `new Date(cell)` reads from a cell.
   */
  function ImportRow(row: Row, index: nat, nowMs: nat, refs: nat, toTime: Value -> int): (t: Task)
    ensures Truthy(t.name) && Truthy(t.duration) && Truthy(t.assignee)
    ensures Truthy(t.priority) && Truthy(t.status)
    ensures Truthy(t.progress) || t.progress == Number(0)
    ensures t.startDate.Instant? && t.endDate.Instant?
  {
    var number := index + 1;
    Task(Text(NatToString(number)),
         Or(Or(Or(Cell(row, "Task Name"), Cell(row, "Name")), Cell(row, "Task")), Text("Task " + NatToString(number))),
         Instant(Date(StartRef(refs, index), CellTime(row, "Start Date", nowMs, toTime))),
         Instant(Date(EndRef(refs, index), CellTime(row, "End Date", nowMs, toTime))),
         Or(Cell(row, "Duration"), Number(1)),
         Or(Or(Cell(row, "Progress"), Cell(row, "% Complete")), Number(0)),
         Or(Or(Cell(row, "Assignee"), Cell(row, "Resource")), Text("Unassigned")),
         Or(Cell(row, "Priority"), Text("Medium")),
         Or(Cell(row, "Status"), Text("Not Started")),
         Undefined,
         [ImportEntry(index, Date(EntryRef(refs, index), nowMs))],
         None)
  }

  /** `row[column] ? new Date(row[column]) : new Date()`, as a time. */
  function CellTime(row: Row, column: string, nowMs: nat, toTime: Value -> int): int
  {
    if Truthy(Cell(row, column)) then toTime(Cell(row, column)) else nowMs
  }

  /** The value of the first listed column whose cell is truthy, else the default. */
  function FirstTruthy(row: Row, columns: seq<string>, default: Value): Value
  {
    if columns == [] then default
    else if Truthy(Cell(row, columns[0])) then Cell(row, columns[0])
    else FirstTruthy(row, columns[1..], default)
  }

  /** `FirstTruthy` picks the cell of the earliest truthy column, or the default when there is none. */
  lemma {:induction false} FirstTruthyPicksEarliest(row: Row, columns: seq<string>, default: Value)
    ensures (forall k :: 0 <= k < |columns| ==> !Truthy(Cell(row, columns[k]))) ==>
              FirstTruthy(row, columns, default) == default
    ensures forall k :: 0 <= k < |columns| && Truthy(Cell(row, columns[k])) &&
                        (forall j :: 0 <= j < k ==> !Truthy(Cell(row, columns[j]))) ==>
              FirstTruthy(row, columns, default) == Cell(row, columns[k])
  {
    if columns != [] {
      FirstTruthyPicksEarliest(row, columns[1..], default);
      forall k | 0 < k < |columns| && Truthy(Cell(row, columns[k])) &&
                 (forall j :: 0 <= j < k ==> !Truthy(Cell(row, columns[j])))
        ensures FirstTruthy(row, columns[1..], default) == Cell(row, columns[k])
      {
        assert columns[1..][k - 1] == columns[k];
        forall j | 0 <= j < k - 1 ensures !Truthy(Cell(row, columns[1..][j])) {
          assert columns[1..][j] == columns[j + 1];
        }
      }
      if forall k :: 0 <= k < |columns| ==> !Truthy(Cell(row, columns[k])) {
        forall j | 0 <= j < |columns| - 1 ensures !Truthy(Cell(row, columns[1..][j])) {
          assert columns[1..][j] == columns[j + 1];
        }
      }
    }
  }

  /**
   * Every field of an imported task takes the first truthy alias column, and
   * otherwise its fixed default; a falsy cell such as a Duration of 0 falls
   * through to the default.
   */
  lemma ImportRowDefaults(row: Row, index: nat, nowMs: nat, refs: nat, toTime: Value -> int)
    ensures var t := ImportRow(row, index, nowMs, refs, toTime);
            && t.id == Text(NatToString(index + 1))
            && t.name == FirstTruthy(row, NameColumns, Text("Task " + NatToString(index + 1)))
            && t.duration == FirstTruthy(row, ["Duration"], Number(1))
            && t.progress == FirstTruthy(row, ProgressColumns, Number(0))
            && t.assignee == FirstTruthy(row, AssigneeColumns, Text("Unassigned"))
            && t.priority == FirstTruthy(row, ["Priority"], Text("Medium"))
            && t.status == FirstTruthy(row, ["Status"], Text("Not Started"))
            && t.startDate.date.time == (if Truthy(Cell(row, "Start Date")) then toTime(Cell(row, "Start Date")) else nowMs)
            && t.endDate.date.time == (if Truthy(Cell(row, "End Date")) then toTime(Cell(row, "End Date")) else nowMs)
            && t.dependencies == Undefined
            && t.proposedChanges == None
  {
    var name := Text("Task " + NatToString(index + 1));
    assert NameColumns[1..] == ["Name", "Task"] && NameColumns[1..][1..] == ["Task"];
    assert FirstTruthy(row, ["Task"], name) == Or(Cell(row, "Task"), name);
    assert FirstTruthy(row, ["Name", "Task"], name) == Or(Cell(row, "Name"), Or(Cell(row, "Task"), name));
    assert ProgressColumns[1..] == ["% Complete"];
    assert FirstTruthy(row, ["% Complete"], Number(0)) == Or(Cell(row, "% Complete"), Number(0));
    assert AssigneeColumns[1..] == ["Resource"];
    assert FirstTruthy(row, ["Resource"], Text("Unassigned")) == Or(Cell(row, "Resource"), Text("Unassigned"));
  }

  /** `jsonData.map((row, index) => ...)`. */
  function ImportRows(rows: seq<Row>, nowMs: nat, refs: nat, toTime: Value -> int): (ts: seq<Task>)
    ensures |ts| == |rows|
  {
    seq(|rows|, i requires 0 <= i < |rows| => ImportRow(rows[i], i, nowMs, refs, toTime))
  }

  /**
   * Importing n rows yields n tasks numbered "1" to "n" in row order, with
   * pairwise distinct ids, no pending proposal, and a trail of exactly one
   * system entry for the import.
   */
  lemma ImportRowsIdsAndAudit(rows: seq<Row>, nowMs: nat, refs: nat, toTime: Value -> int)
    ensures var ts := ImportRows(rows, nowMs, refs, toTime);
            && |ts| == |rows|
            && (forall i :: 0 <= i < |ts| ==> ts[i].id == Text(NatToString(i + 1)) && ts[i].proposedChanges == None)
            && (forall i :: 0 <= i < |ts| ==>
                  |ts[i].auditTrail| == 1 && ts[i].auditTrail[0].kind == System &&
                  ts[i].auditTrail[0].field == "imported" && ts[i].auditTrail[0].oldValue == Null)
            && (forall i, j :: 0 <= i < j < |ts| ==> ts[i].id != ts[j].id)
  {
    var ts := ImportRows(rows, nowMs, refs, toTime);
    forall i, j | 0 <= i < j < |ts| ensures ts[i].id != ts[j].id {
      NatToStringInjective(i + 1, j + 1);
    }
  }

  /** The tasks an upload leaves: the imported rows, or the sample project when the file cannot be read. */
  function ImportedTasks(book: Workbook, nowMs: nat, refs: nat, toTime: Value -> int): (ts: seq<Task>)
    ensures book.Unreadable? ==> ts == SampleTasks()
    ensures book.Parsed? ==> |ts| == |book.rows|
  {
    match book
    case Parsed(rows) => ImportRows(rows, nowMs, refs, toTime)
    case Unreadable => SampleTasks()
  }

  /** A row holding only a Task column gets the task name and every default. */
  lemma OnlyTaskColumn(name: string, index: nat, nowMs: nat, refs: nat, toTime: Value -> int)
    requires name != ""
    ensures var t := ImportRow(map["Task" := Text(name)], index, nowMs, refs, toTime);
            && t.name == Text(name)
            && t.duration == Number(1) && t.progress == Number(0)
            && t.assignee == Text("Unassigned") && t.priority == Text("Medium")
            && t.status == Text("Not Started")
            && t.startDate.date.time == nowMs && t.endDate.date.time == nowMs
            && t.startDate != t.endDate
            && t.auditTrail == [ImportEntry(index, Date(EntryRef(refs, index), nowMs))]
  {
  }

  /** A Duration of 0 is falsy and falls back to 1. */
  lemma ZeroDurationFallsThrough(row: Row, index: nat, nowMs: nat, refs: nat, toTime: Value -> int)
    requires Cell(row, "Duration") == Number(0)
    ensures ImportRow(row, index, nowMs, refs, toTime).duration == Number(1)
  {
  }

  /**
   * Every Date an import creates is a distinct object: no two rows share one,
   * and the start, end and audit timestamp of a row are three, all numbered
   * from `refs` on, so an import given fresh identities creates fresh Dates.
   */
  lemma ImportDatesDistinct(rows: seq<Row>, nowMs: nat, refs: nat, toTime: Value -> int)
    ensures var ts := ImportRows(rows, nowMs, refs, toTime);
            && (forall i, j :: 0 <= i < |ts| && 0 <= j < |ts| ==>
                  ts[i].startDate != ts[j].endDate
                  && ts[i].startDate.date != ts[j].auditTrail[0].timestamp
                  && ts[i].endDate.date != ts[j].auditTrail[0].timestamp)
            && (forall i, j :: 0 <= i < j < |ts| ==>
                  ts[i].startDate != ts[j].startDate && ts[i].endDate != ts[j].endDate
                  && ts[i].auditTrail[0].timestamp != ts[j].auditTrail[0].timestamp)
            && (forall i :: 0 <= i < |ts| ==>
                  refs <= ts[i].startDate.date.ref && refs <= ts[i].endDate.date.ref
                  && refs <= ts[i].auditTrail[0].timestamp.ref)
  {
    var ts := ImportRows(rows, nowMs, refs, toTime);
    forall i, j | 0 <= i < |ts| && 0 <= j < |ts|
      ensures ts[i].startDate.date.ref != ts[j].endDate.date.ref
      ensures ts[i].startDate.date.ref != ts[j].auditTrail[0].timestamp.ref
      ensures ts[i].endDate.date.ref != ts[j].auditTrail[0].timestamp.ref
    {
      assert ts[i].startDate.date.ref == refs + 3 * i;
      assert ts[j].endDate.date.ref == refs + 3 * j + 1;
      assert ts[i].endDate.date.ref == refs + 3 * i + 1;
      assert ts[j].auditTrail[0].timestamp.ref == refs + 3 * j + 2;
    }
  }

  /**
   * A row with no date cells gets two different Date objects holding the same
   * instant, so an edit setting its start to its end date is still logged.
   */
  lemma FallbackDatesAreDistinctObjects(index: nat, nowMs: nat, refs: nat, toTime: Value -> int,
                                        reason: string, editMs: nat, editRefs: nat)
    ensures var t := ImportRow(map[], index, nowMs, refs, toTime);
            && t.startDate.date.time == t.endDate.date.time
            && |ChangeEntries(t, [(StartDate, t.endDate)], reason, editMs, editRefs)| == 1
  {
    var t := ImportRow(map[], index, nowMs, refs, toTime);
    var updates := [(StartDate, t.endDate)];
    assert updates[..0] == [];
    assert Differs(t, StartDate, t.endDate);
  }
}
