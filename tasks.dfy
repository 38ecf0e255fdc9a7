/**
 * The records of the project dashboard (Task, AuditEntry, TaskProposal,
 * Meeting) and the two rules by which the dashboard changes its task list:
 * a manual edit, which logs one audit entry per changed field, merges the new
 * values and drops the pending proposal; and the attachment of a meeting's
 * proposals to the tasks they name.
 *
 * JavaScript values are modelled by `Value`, and Dafny's equality on it stands
 * for `!==`. A Date object carries its identity (`ref`) beside its time, so a
 * fresh Date holding the same instant is still a different value.
 */
module Tasks {
  import opened JsText

  datatype Option<T> = None | Some(value: T)

  /** A JavaScript Date object: its identity and its epoch milliseconds. */
  datatype Date = Date(ref: nat, time: int)

  datatype TaskProposal = TaskProposal(
    id: string,
    taskId: string,
    proposedStatus: Option<string>,
    proposedProgress: Option<int>,
    proposedEndDate: Option<Date>,
    reason: string,
    confidence: real,
    meetingId: string,
    timestamp: Date)

  /** A JavaScript value as it can stand in a task field or a spreadsheet cell. */
  datatype Value =
    | Undefined
    | Null
    | Bool(b: bool)
    | Number(n: int)
    | Text(s: string)
    | Instant(date: Date)
    | Strings(items: seq<string>)
    | Pending(proposal: TaskProposal)

  /** JavaScript truthiness: `undefined`, `null`, `false`, `0` and `""` are falsy. */
  predicate Truthy(v: Value)
  {
    match v
    case Undefined => false
    case Null => false
    case Bool(b) => b
    case Number(n) => n != 0
    case Text(s) => s != ""
    case _ => true
  }

  /** `a || b`: the first operand when it is truthy, the second otherwise. */
  function Or(a: Value, b: Value): (r: Value)
    ensures Truthy(a) ==> r == a
    ensures !Truthy(a) ==> r == b
  {
    if Truthy(a) then a else b
  }

  datatype EntryKind = Manual | FromMeeting | System

  datatype AuditEntry = AuditEntry(
    id: string,
    timestamp: Date,
    kind: EntryKind,
    field: string,
    oldValue: Value,
    newValue: Value,
    reason: Option<string>,
    meetingId: Option<string>)

  datatype Task = Task(
    id: Value,
    name: Value,
    startDate: Value,
    endDate: Value,
    duration: Value,
    progress: Value,
    assignee: Value,
    priority: Value,
    status: Value,
    dependencies: Value,
    auditTrail: seq<AuditEntry>,
    proposedChanges: Option<TaskProposal>)

  datatype Meeting = Meeting(
    id: string,
    title: string,
    date: Date,
    duration: nat,
    transcript: string,
    summary: string,
    taskProposals: seq<TaskProposal>)

  /** The keys of a Task, as `Partial<Task>` may name them. */
  datatype Field =
    | Id | Name | StartDate | EndDate | Duration | Progress | Assignee
    | Priority | Status | Dependencies | AuditTrail | ProposedChanges

  /** The property name of a field, as `Object.entries` reports it. */
  function Key(f: Field): string
  {
    match f
    case Id => "id"
    case Name => "name"
    case StartDate => "startDate"
    case EndDate => "endDate"
    case Duration => "duration"
    case Progress => "progress"
    case Assignee => "assignee"
    case Priority => "priority"
    case Status => "status"
    case Dependencies => "dependencies"
    case AuditTrail => "auditTrail"
    case ProposedChanges => "proposedChanges"
  }

  lemma KeyInjective(f: Field, g: Field)
    ensures Key(f) == Key(g) ==> f == g
  {
  }

  /** One entry of the `updates` object: a field and its new value. */
  type Update = (Field, Value)

  /** The keys of a JavaScript object are distinct. */
  predicate DistinctKeys(updates: seq<Update>)
  {
    forall i, j :: 0 <= i < j < |updates| ==> updates[i].0 != updates[j].0
  }

  /** `task[field]`; the audit trail is never read this way. */
  function Get(t: Task, f: Field): Value
    requires f != AuditTrail
  {
    match f
    case Id => t.id
    case Name => t.name
    case StartDate => t.startDate
    case EndDate => t.endDate
    case Duration => t.duration
    case Progress => t.progress
    case Assignee => t.assignee
    case Priority => t.priority
    case Status => t.status
    case Dependencies => t.dependencies
    case ProposedChanges => if t.proposedChanges.Some? then Pending(t.proposedChanges.value) else Undefined
  }

  /**
   * One property of the spread `{...task, ...updates}`. A value given for
   * `auditTrail` is not kept: the edit replaces the trail right after.
   */
  function Set(t: Task, f: Field, v: Value): Task
  {
    match f
    case Id => t.(id := v)
    case Name => t.(name := v)
    case StartDate => t.(startDate := v)
    case EndDate => t.(endDate := v)
    case Duration => t.(duration := v)
    case Progress => t.(progress := v)
    case Assignee => t.(assignee := v)
    case Priority => t.(priority := v)
    case Status => t.(status := v)
    case Dependencies => t.(dependencies := v)
    case AuditTrail => t
    case ProposedChanges => t.(proposedChanges := if v.Pending? then Some(v.proposal) else None)
  }

  lemma GetSet(t: Task, f: Field, g: Field, v: Value)
    requires g != AuditTrail && g != ProposedChanges
    ensures Get(Set(t, f, v), g) == if f == g then v else Get(t, g)
    ensures Set(t, f, v).auditTrail == t.auditTrail
  {
  }

  /** The test of the edit loop: a field other than the trail whose value changes. */
  predicate Differs(t: Task, f: Field, v: Value)
  {
    f != AuditTrail && Get(t, f) != v
  }

  /** The updates that change the task, in their order. */
  function ChangedUpdates(t: Task, updates: seq<Update>): seq<Update>
  {
    if updates == [] then []
    else
      var last := updates[|updates| - 1];
      ChangedUpdates(t, updates[..|updates| - 1]) + (if Differs(t, last.0, last.1) then [last] else [])
  }

  /** The audit record of one changed field of a manual edit. */
  function ManualEntry(t: Task, f: Field, v: Value, reason: string, nowMs: nat, ref: nat): AuditEntry
    requires f != AuditTrail
  {
    AuditEntry("audit-" + NatToString(nowMs) + "-" + Key(f), Date(ref, nowMs), Manual, Key(f), Get(t, f), v,
               Some(reason), None)
  }

  /**
   * The entries the edit loop collects, comparing every update with the task as
   * it was. The k-th entry's `new Date()` is the object `refs + k`.
   */
  function ChangeEntries(t: Task, updates: seq<Update>, reason: string, nowMs: nat, refs: nat): (es: seq<AuditEntry>)
    ensures |es| <= |updates|
    ensures forall e :: e in es ==> e.kind == Manual && e.reason == Some(reason) && e.meetingId == None
  {
    if updates == [] then []
    else
      var last := updates[|updates| - 1];
      var init := ChangeEntries(t, updates[..|updates| - 1], reason, nowMs, refs);
      init + (if Differs(t, last.0, last.1) then [ManualEntry(t, last.0, last.1, reason, nowMs, refs + |init|)] else [])
  }

  /**
   * `{...task, ...updates}`: the properties of the update are copied in order.
   * An `auditTrail` property is dropped here, since the edit replaces the
   * trail on the next line.
   */
  function Merge(t: Task, updates: seq<Update>): (m: Task)
    ensures m.auditTrail == t.auditTrail
  {
    if updates == [] then t
    else
      var last := updates[|updates| - 1];
      Set(Merge(t, updates[..|updates| - 1]), last.0, last.1)
  }

  /** The task a manual edit produces. */
  function UpdatedTask(t: Task, updates: seq<Update>, reason: string, nowMs: nat, refs: nat): (u: Task)
    ensures u.proposedChanges == None
    ensures t.auditTrail <= u.auditTrail && |u.auditTrail| <= |t.auditTrail| + |updates|
  {
    Merge(t, updates).(auditTrail := t.auditTrail + ChangeEntries(t, updates, reason, nowMs, refs),
                       proposedChanges := None)
  }

  /** The task list after a manual edit of every task whose id is `taskId`. */
  function UpdateTasks(ts: seq<Task>, taskId: string, updates: seq<Update>, reason: string, nowMs: nat, refs: nat)
    : (r: seq<Task>)
    ensures |r| == |ts|
  {
    seq(|ts|, i requires 0 <= i < |ts| =>
      if ts[i].id == Text(taskId) then UpdatedTask(ts[i], updates, reason, nowMs, refs + i * |updates|) else ts[i])
  }

  // ---------------------------------------------------------------------------
  // Properties of a manual edit

  /** An update is listed as changed exactly when it changes the task. */
  lemma {:induction false} ChangedUpdatesMembership(t: Task, updates: seq<Update>, x: Update)
    ensures x in ChangedUpdates(t, updates) <==> x in updates && Differs(t, x.0, x.1)
  {
    if updates != [] {
      var init := updates[..|updates| - 1];
      ChangedUpdatesMembership(t, init, x);
      assert updates == init + [updates[|updates| - 1]];
    }
  }

  /**
   * One audit entry per changed update, in order: a manual entry with the
   * field's name, the value before the edit, the new value and the reason.
   */
  lemma {:induction false} AuditEntryPerChange(t: Task, updates: seq<Update>, reason: string, nowMs: nat, refs: nat)
    ensures var es := ChangeEntries(t, updates, reason, nowMs, refs);
            var cs := ChangedUpdates(t, updates);
            |es| == |cs| <= |updates| &&
            forall k :: 0 <= k < |es| ==>
              cs[k].0 != AuditTrail &&
              es[k] == ManualEntry(t, cs[k].0, cs[k].1, reason, nowMs, refs + k) &&
              es[k].kind == Manual && es[k].field == Key(cs[k].0) &&
              es[k].oldValue == Get(t, cs[k].0) && es[k].newValue == cs[k].1 &&
              es[k].reason == Some(reason) && es[k].meetingId == None &&
              es[k].timestamp == Date(refs + k, nowMs)
  {
    if updates != [] {
      AuditEntryPerChange(t, updates[..|updates| - 1], reason, nowMs, refs);
    }
  }

  /** The audit trail itself is never logged as a changed field. */
  lemma NoEntryForAuditTrail(t: Task, updates: seq<Update>, reason: string, nowMs: nat, refs: nat)
    ensures forall e :: e in ChangeEntries(t, updates, reason, nowMs, refs) ==> e.field != "auditTrail"
  {
    var es := ChangeEntries(t, updates, reason, nowMs, refs);
    var cs := ChangedUpdates(t, updates);
    AuditEntryPerChange(t, updates, reason, nowMs, refs);
    forall e | e in es ensures e.field != "auditTrail" {
      var k :| 0 <= k < |es| && es[k] == e;
      KeyInjective(cs[k].0, AuditTrail);
    }
  }

  /** Within one edit with distinct keys, the new entries have distinct ids. */
  lemma EntryIdsDistinct(t: Task, updates: seq<Update>, reason: string, nowMs: nat, refs: nat)
    requires DistinctKeys(updates)
    ensures var es := ChangeEntries(t, updates, reason, nowMs, refs);
            forall j, k :: 0 <= j < k < |es| ==> es[j].id != es[k].id
  {
    var es := ChangeEntries(t, updates, reason, nowMs, refs);
    var cs := ChangedUpdates(t, updates);
    AuditEntryPerChange(t, updates, reason, nowMs, refs);
    ChangedUpdatesDistinctKeys(t, updates);
    forall j, k | 0 <= j < k < |es| ensures es[j].id != es[k].id {
      var p := "audit-" + NatToString(nowMs) + "-";
      assert es[j].id == p + Key(cs[j].0) && es[k].id == p + Key(cs[k].0);
      KeyInjective(cs[j].0, cs[k].0);
      PrefixCancels(p, Key(cs[j].0), Key(cs[k].0));
    }
  }

  /** Each entry of one edit carries its own fresh Date, read from the edit's clock. */
  lemma EntryTimestampsFresh(t: Task, updates: seq<Update>, reason: string, nowMs: nat, refs: nat)
    ensures var es := ChangeEntries(t, updates, reason, nowMs, refs);
            && (forall k :: 0 <= k < |es| ==>
                  refs <= es[k].timestamp.ref < refs + |updates| && es[k].timestamp.time == nowMs)
            && (forall j, k :: 0 <= j < k < |es| ==> es[j].timestamp != es[k].timestamp)
  {
    AuditEntryPerChange(t, updates, reason, nowMs, refs);
  }

  lemma PrefixCancels(p: string, a: string, b: string)
    ensures p + a == p + b ==> a == b
  {
    assert a == (p + a)[|p|..] && b == (p + b)[|p|..];
  }

  /** Filtering keeps distinct keys distinct. */
  /** The positions in `updates` of the updates that change the task. */
  function ChangedIndices(t: Task, updates: seq<Update>): (idx: seq<nat>)
    ensures forall k :: 0 <= k < |idx| ==> idx[k] < |updates|
  {
    if updates == [] then []
    else
      var last := updates[|updates| - 1];
      ChangedIndices(t, updates[..|updates| - 1]) + (if Differs(t, last.0, last.1) then [|updates| - 1] else [])
  }

  /**
   * Filtering keeps the updates' order: the k-th changed update is the update
   * at the k-th of a strictly increasing run of positions, and every position
   * whose update changes the task is in that run.
   */
  lemma {:induction false} ChangedUpdatesKeepOrder(t: Task, updates: seq<Update>)
    ensures var idx := ChangedIndices(t, updates);
            var cs := ChangedUpdates(t, updates);
            && |idx| == |cs|
            && (forall k :: 0 <= k < |idx| ==> cs[k] == updates[idx[k]])
            && (forall k, l :: 0 <= k < l < |idx| ==> idx[k] < idx[l])
            && (forall i :: 0 <= i < |updates| && Differs(t, updates[i].0, updates[i].1) ==> i in idx)
  {
    if updates != [] {
      var init := updates[..|updates| - 1];
      ChangedUpdatesKeepOrder(t, init);
      assert forall i :: 0 <= i < |init| ==> init[i] == updates[i];
    }
  }

  lemma {:induction false} ChangedUpdatesDistinctKeys(t: Task, updates: seq<Update>)
    requires DistinctKeys(updates)
    ensures DistinctKeys(ChangedUpdates(t, updates))
  {
    if updates != [] {
      var init := updates[..|updates| - 1];
      var last := updates[|updates| - 1];
      ChangedUpdatesDistinctKeys(t, init);
      var ci := ChangedUpdates(t, init);
      forall x | x in ci ensures x.0 != last.0 {
        ChangedUpdatesMembership(t, init, x);
      }
    }
  }

  /** An edit that changes no field logs nothing. */
  lemma NoChangeNoEntry(t: Task, updates: seq<Update>, reason: string, nowMs: nat, refs: nat)
    requires forall k :: 0 <= k < |updates| ==> !Differs(t, updates[k].0, updates[k].1)
    ensures ChangeEntries(t, updates, reason, nowMs, refs) == []
  {
    AuditEntryPerChange(t, updates, reason, nowMs, refs);
    var cs := ChangedUpdates(t, updates);
    if cs != [] {
      ChangedUpdatesMembership(t, updates, cs[0]);
    }
  }

  /** After the spread, the named data fields hold their new values. */
  lemma {:induction false} MergeSetsFields(t: Task, updates: seq<Update>)
    requires DistinctKeys(updates)
    ensures forall k :: 0 <= k < |updates| && updates[k].0 != AuditTrail && updates[k].0 != ProposedChanges ==>
              Get(Merge(t, updates), updates[k].0) == updates[k].1
    ensures forall f :: f != AuditTrail && f != ProposedChanges && (forall k :: 0 <= k < |updates| ==> updates[k].0 != f) ==>
              Get(Merge(t, updates), f) == Get(t, f)
    ensures Merge(t, updates).auditTrail == t.auditTrail
  {
    if updates != [] {
      var init := updates[..|updates| - 1];
      var last := updates[|updates| - 1];
      MergeSetsFields(t, init);
      forall g | g != AuditTrail && g != ProposedChanges {
        GetSet(Merge(t, init), last.0, g, last.1);
      }
    }
  }

  /**
   * A manual edit sets the supplied fields, keeps the others, appends exactly
   * the change entries to the old trail and clears the pending proposal.
   */
  lemma UpdatedTaskFacts(t: Task, updates: seq<Update>, reason: string, nowMs: nat, refs: nat)
    requires DistinctKeys(updates)
    ensures var u := UpdatedTask(t, updates, reason, nowMs, refs);
            && u.proposedChanges == None
            && u.auditTrail == t.auditTrail + ChangeEntries(t, updates, reason, nowMs, refs)
            && t.auditTrail <= u.auditTrail
            && (forall k :: 0 <= k < |updates| && updates[k].0 != AuditTrail && updates[k].0 != ProposedChanges ==>
                  Get(u, updates[k].0) == updates[k].1)
            && (forall f :: f != AuditTrail && f != ProposedChanges && (forall k :: 0 <= k < |updates| ==> updates[k].0 != f) ==>
                  Get(u, f) == Get(t, f))
  {
    MergeSetsFields(t, updates);
    var m := Merge(t, updates);
    var u := UpdatedTask(t, updates, reason, nowMs, refs);
    forall f | f != AuditTrail && f != ProposedChanges ensures Get(u, f) == Get(m, f) { }
  }

  /** The edit touches only the tasks with the given id and keeps the list's length and order. */
  lemma UpdateTasksFrame(ts: seq<Task>, taskId: string, updates: seq<Update>, reason: string, nowMs: nat, refs: nat)
    ensures var r := UpdateTasks(ts, taskId, updates, reason, nowMs, refs);
            && |r| == |ts|
            && (forall i :: 0 <= i < |ts| && ts[i].id != Text(taskId) ==> r[i] == ts[i])
            && (forall i :: 0 <= i < |ts| && ts[i].id == Text(taskId) ==>
                  r[i] == UpdatedTask(ts[i], updates, reason, nowMs, refs + i * |updates|))
            && (forall i :: 0 <= i < |ts| ==> ts[i].auditTrail <= r[i].auditTrail)
            && ((forall i :: 0 <= i < |ts| ==> ts[i].id != Text(taskId)) ==> r == ts)
  {
  }

  /** Repeating the same edit has nothing left to change. */
  lemma {:induction false} MergeAgreeing(x: Task, updates: seq<Update>)
    requires forall k :: 0 <= k < |updates| && updates[k].0 != AuditTrail ==> Get(x, updates[k].0) == updates[k].1
    ensures Merge(x, updates) == x
  {
    if updates != [] {
      var init := updates[..|updates| - 1];
      MergeAgreeing(x, init);
      var last := updates[|updates| - 1];
      if last.0 == ProposedChanges {
        assert x.proposedChanges.Some? ==> Get(x, ProposedChanges) == Pending(x.proposedChanges.value);
      }
    }
  }

  /**
   * Applying the same updates a second time adds no audit entry and leaves the
   * task as the first call left it, unless the update itself supplies a
   * pending proposal (which the edit always clears).
   */
  lemma UpdateIdempotent(t: Task, updates: seq<Update>, reason: string, reason2: string,
                         nowMs: nat, refs: nat, nowMs2: nat, refs2: nat)
    requires DistinctKeys(updates)
    requires forall k :: 0 <= k < |updates| && updates[k].0 == ProposedChanges ==> updates[k].1 == Undefined
    ensures var u := UpdatedTask(t, updates, reason, nowMs, refs);
            && ChangeEntries(u, updates, reason2, nowMs2, refs2) == []
            && UpdatedTask(u, updates, reason2, nowMs2, refs2) == u
  {
    var u := UpdatedTask(t, updates, reason, nowMs, refs);
    UpdatedTaskFacts(t, updates, reason, nowMs, refs);
    assert forall k :: 0 <= k < |updates| && updates[k].0 != AuditTrail ==> Get(u, updates[k].0) == updates[k].1;
    NoChangeNoEntry(u, updates, reason2, nowMs2, refs2);
    MergeAgreeing(u, updates);
  }

  /** At the list level as well, a repeated edit is a no-op. */
  lemma UpdateTasksIdempotent(ts: seq<Task>, taskId: string, updates: seq<Update>, reason: string, reason2: string,
                              nowMs: nat, refs: nat, nowMs2: nat, refs2: nat)
    requires DistinctKeys(updates)
    requires forall k :: 0 <= k < |updates| && updates[k].0 == ProposedChanges ==> updates[k].1 == Undefined
    ensures var r := UpdateTasks(ts, taskId, updates, reason, nowMs, refs);
            UpdateTasks(r, taskId, updates, reason2, nowMs2, refs2) == r
  {
    var r := UpdateTasks(ts, taskId, updates, reason, nowMs, refs);
    var r2 := UpdateTasks(r, taskId, updates, reason2, nowMs2, refs2);
    forall i | 0 <= i < |ts| ensures r2[i] == r[i] {
      if ts[i].id == Text(taskId) {
        UpdateIdempotent(ts[i], updates, reason, reason2, nowMs, refs + i * |updates|, nowMs2, refs2 + i * |updates|);
      }
    }
  }

  /** The exception: an edit that supplies a pending proposal logs it again on every repetition. */
  lemma ProposalUpdateNotIdempotent(t: Task, p: TaskProposal, reason: string, nowMs: nat, refs: nat)
    ensures var updates := [(ProposedChanges, Pending(p))];
            var u := UpdatedTask(t, updates, reason, nowMs, refs);
            |ChangeEntries(u, updates, reason, nowMs, refs)| == 1
  {
    var updates := [(ProposedChanges, Pending(p))];
    assert updates[..0] == [];
  }

  // ---------------------------------------------------------------------------
  // Attaching a meeting's proposals

  /** `proposals.find(p => p.taskId === id)`. */
  function FindProposal(ps: seq<TaskProposal>, id: Value): (r: Option<TaskProposal>)
    ensures r.None? <==> forall k :: 0 <= k < |ps| ==> Text(ps[k].taskId) != id
    ensures r.Some? ==> exists k :: 0 <= k < |ps| && ps[k] == r.value && Text(ps[k].taskId) == id &&
                                    forall j :: 0 <= j < k ==> Text(ps[j].taskId) != id
  {
    if ps == [] then None
    else if Text(ps[0].taskId) == id then Some(ps[0])
    else
      var r := FindProposal(ps[1..], id);
      assert r.Some? ==> exists k :: 1 <= k < |ps| && ps[k] == r.value && Text(ps[k].taskId) == id &&
                                     forall j :: 0 <= j < k ==> Text(ps[j].taskId) != id by {
        if r.Some? {
          var k :| 0 <= k < |ps[1..]| && ps[1..][k] == r.value && Text(ps[1..][k].taskId) == id &&
                   forall j :: 0 <= j < k ==> Text(ps[1..][j].taskId) != id;
          assert ps[k + 1] == r.value;
          forall j | 0 <= j < k + 1 ensures Text(ps[j].taskId) != id {
            if j > 0 { assert ps[j] == ps[1..][j - 1]; }
          }
        }
      }
      r
  }

  /** The tasks after `handleMeetingComplete` set each one's first matching proposal. */
  function AttachProposals(ts: seq<Task>, ps: seq<TaskProposal>): (r: seq<Task>)
    ensures |r| == |ts|
  {
    seq(|ts|, i requires 0 <= i < |ts| =>
      match FindProposal(ps, ts[i].id)
      case Some(p) => ts[i].(proposedChanges := Some(p))
      case None => ts[i])
  }

  /**
   * Each task gets the first proposal of the meeting that names it; a task no
   * proposal names is unchanged; nothing but the pending slot ever changes.
   */
  lemma AttachProposalsFacts(ts: seq<Task>, ps: seq<TaskProposal>)
    ensures var r := AttachProposals(ts, ps);
            && |r| == |ts|
            && (forall i :: 0 <= i < |ts| ==> r[i].(proposedChanges := ts[i].proposedChanges) == ts[i])
            && (forall i :: 0 <= i < |ts| ==> r[i].auditTrail == ts[i].auditTrail)
            && (forall i :: 0 <= i < |ts| && (forall k :: 0 <= k < |ps| ==> Text(ps[k].taskId) != ts[i].id) ==>
                  r[i] == ts[i])
            && (forall i, k ::
                  (0 <= i < |ts| && 0 <= k < |ps| && Text(ps[k].taskId) == ts[i].id &&
                   forall j :: 0 <= j < k ==> Text(ps[j].taskId) != ts[i].id) ==>
                  r[i].proposedChanges == Some(ps[k]))
  {
    var r := AttachProposals(ts, ps);
    forall i, k | 0 <= i < |ts| && 0 <= k < |ps| && Text(ps[k].taskId) == ts[i].id &&
                  (forall j :: 0 <= j < k ==> Text(ps[j].taskId) != ts[i].id)
      ensures r[i].proposedChanges == Some(ps[k])
    {
      var f := FindProposal(ps, ts[i].id);
      var k' :| 0 <= k' < |ps| && ps[k'] == f.value && Text(ps[k'].taskId) == ts[i].id &&
                forall j :: 0 <= j < k' ==> Text(ps[j].taskId) != ts[i].id;
      assert k' == k;
    }
  }

  // ---------------------------------------------------------------------------
  // The sample project

  const Jan1: int := 1_704_067_200_000
  const DayMs: int := 86_400_000

  /** `new Date("2024-...")`, `days` days after 1 January 2024. */
  function SampleDate(ref: nat, days: nat): Date
  {
    Date(ref, Jan1 + days * DayMs)
  }

  function SampleEntry(id: string, ts: Date, kind: EntryKind, oldStatus: string, newStatus: string,
                       reason: string, meetingId: Option<string>): AuditEntry
  {
    AuditEntry(id, ts, kind, "status", Text(oldStatus), Text(newStatus), Some(reason), meetingId)
  }

  /** The three tasks the dashboard loads as sample data. */
  function SampleTasks(): (ts: seq<Task>)
    ensures |ts| == 3
    ensures forall i :: 0 <= i < 3 ==> ts[i].id == Text(NatToString(i + 1)) && ts[i].proposedChanges == None
  {
    [ Task(Text("1"), Text("Project Planning"),
           Instant(SampleDate(1, 0)), Instant(SampleDate(2, 14)), Number(14), Number(100),
           Text("John Doe"), Text("High"), Text("Completed"), Undefined,
           [ SampleEntry("audit-1", SampleDate(3, 0), Manual, "Not Started", "In Progress", "Project kickoff", None),
             SampleEntry("audit-2", SampleDate(4, 14), Manual, "In Progress", "Completed",
                         "All planning documents finalized", None) ],
           None),
      Task(Text("2"), Text("Requirements Gathering"),
           Instant(SampleDate(5, 9)), Instant(SampleDate(6, 24)), Number(15), Number(80),
           Text("Jane Smith"), Text("High"), Text("In Progress"), Undefined,
           [ SampleEntry("audit-3", SampleDate(7, 9), Manual, "Not Started", "In Progress",
                         "Started stakeholder interviews", None) ],
           None),
      Task(Text("3"), Text("Design Phase"),
           Instant(SampleDate(8, 19)), Instant(SampleDate(9, 40)), Number(21), Number(45),
           Text("Mike Johnson"), Text("Medium"), Text("Delayed"), Undefined,
           [ SampleEntry("audit-4", SampleDate(10, 19), Manual, "Not Started", "In Progress",
                         "Design work started", None),
             SampleEntry("audit-5", SampleDate(11, 31), FromMeeting, "In Progress", "Delayed",
                         "Waiting for client feedback on mockups", Some("meeting-1")) ],
           None) ]
  }
}
