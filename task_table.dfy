/** The `Task` table of the call-checklist web application
    (your_project/app.py) and what each route does to it, as functions on
    the whole table. Rows are kept in id order, which is also creation
    order; `nextId` is the id the next inserted row receives. */
module TaskTable {
  import opened Wrappers
  import opened Strings
  import opened Templates

  /** One `Task` row. `parentId` is None for a top-level task. */
  datatype Task = Task(id: nat, userId: nat, callType: string, checklistType: string,
                       text: string, done: bool, parentId: Option<nat>)

  /** The table: its rows in ascending id order and the next id to assign. */
  datatype Table = Table(rows: seq<Task>, nextId: nat)

  /** The outcome of `get_or_404` followed by the ownership test. */
  datatype Access = Granted | NotFound | Unauthorized

  /** Which rows a query or a deletion is about. */
  datatype Selector =
    | Family(id: nat)                                            // a task and its direct subtasks
    | SubtasksOf(parent: nat)                                    // `task.subtasks`
    | OfChecklist(user: nat, callType: string, checklistType: string)  // one user's checklist, all levels
    | TopLevelOf(user: nat, callType: string, checklistType: string)   // ... only `parent_task_id IS NULL`

  predicate Selects(sel: Selector, x: Task) {
    match sel
    case Family(id) => x.id == id || x.parentId == Some(id)
    case SubtasksOf(p) => x.parentId == Some(p)
    case OfChecklist(u, ct, kt) => x.userId == u && x.callType == ct && x.checklistType == kt
    case TopLevelOf(u, ct, kt) =>
      x.userId == u && x.callType == ct && x.checklistType == kt && x.parentId.None?
  }

  /** Two rows belong to the same user's checklist. */
  predicate SameChecklist(a: Task, b: Task) {
    a.userId == b.userId && a.callType == b.callType && a.checklistType == b.checklistType
  }

  predicate AscendingIds(rows: seq<Task>) {
    forall i, j :: 0 <= i < j < |rows| ==> rows[i].id < rows[j].id
  }

  /** The row `x` refers to an existing parent in the same checklist. */
  predicate HasParent(rows: seq<Task>, x: Task)
    requires x.parentId.Some?
  {
    exists p :: p in rows && p.id == x.parentId.value && SameChecklist(p, x)
  }

  /** The table invariant: ids are unique and ascending and below
      `nextId`; every subtask has an older parent in the same user's
      checklist, so no orphaned subtask persists. */
  predicate WellFormed(t: Table) {
    && AscendingIds(t.rows)
    && (forall i :: 0 <= i < |t.rows| ==> t.rows[i].id < t.nextId)
    && (forall x :: x in t.rows && x.parentId.Some? ==>
          x.parentId.value < x.id && HasParent(t.rows, x))
  }

  // ---------------------------------------------------------------------
  // Queries

  /** `filter_by(...)` over the rows, in id order: the rows on which
      `Selects(sel, _)` equals `keep`. */
  function Filter(rows: seq<Task>, sel: Selector, keep: bool): (r: seq<Task>)
    ensures |r| <= |rows|
    decreases |rows|
  {
    if rows == [] then []
    else
      var last := rows[|rows| - 1];
      Filter(rows[..|rows| - 1], sel, keep) + (if Selects(sel, last) == keep then [last] else [])
  }

  /** A query returns exactly the rows that answer it as asked. */
  lemma {:induction false} FilterMembers(rows: seq<Task>, sel: Selector, keep: bool)
    ensures forall x :: x in Filter(rows, sel, keep) <==> x in rows && Selects(sel, x) == keep
    decreases |rows|
  {
    if rows != [] {
      var front := rows[..|rows| - 1];
      FilterMembers(front, sel, keep);
      assert rows == front + [rows[|rows| - 1]];
    }
  }

  /** The `checklist` route's listing: the user's top-level tasks of the
      checklist, ordered by id. */
  function TopLevel(rows: seq<Task>, user: nat, callType: string, checklistType: string): seq<Task> {
    Filter(rows, TopLevelOf(user, callType, checklistType), true)
  }

  /** `task.subtasks` */
  function Subtasks(rows: seq<Task>, id: nat): seq<Task> {
    Filter(rows, SubtasksOf(id), true)
  }

  /** `Task.query.get(id)`: the position of the row with that id. */
  function IndexOf(rows: seq<Task>, id: nat): (r: Option<nat>)
    ensures r.Some? ==> r.value < |rows| && rows[r.value].id == id
    ensures r.None? ==> forall i :: 0 <= i < |rows| ==> rows[i].id != id
    ensures r.Some? ==> forall j :: 0 <= j < r.value ==> rows[j].id != id
  {
    if rows == [] then None
    else if rows[0].id == id then Some(0)
    else match IndexOf(rows[1..], id)
      case None => None
      case Some(k) => Some(k + 1)
  }

  /** `get_or_404` and then `task.owner.id != current_user.id`. */
  function AccessTo(rows: seq<Task>, user: nat, id: nat): (a: Access)
    ensures a == NotFound <==> forall i :: 0 <= i < |rows| ==> rows[i].id != id
    ensures a == Granted ==> exists i :: 0 <= i < |rows| && rows[i].id == id && rows[i].userId == user
  {
    match IndexOf(rows, id)
    case None => NotFound
    case Some(i) => if rows[i].userId == user then Granted else Unauthorized
  }

  // ---------------------------------------------------------------------
  // Inserting rows

  /** The rows `labels` become when added one by one from id `first` on. */
  function NewRows(first: nat, user: nat, callType: string, checklistType: string,
                   labels: seq<string>, parent: Option<nat>): (r: seq<Task>)
    ensures |r| == |labels|
  {
    if labels == [] then []
    else
      NewRows(first, user, callType, checklistType, labels[..|labels| - 1], parent)
      + [Task(first + |labels| - 1, user, callType, checklistType, labels[|labels| - 1], false, parent)]
  }

  /** The inserted rows have consecutive ids, follow the label order, are
      all not done and all hang under `parent`. */
  lemma {:induction false} NewRowsAt(first: nat, user: nat, callType: string, checklistType: string,
                                     labels: seq<string>, parent: Option<nat>)
    ensures forall i :: 0 <= i < |labels| ==>
              NewRows(first, user, callType, checklistType, labels, parent)[i]
              == Task(first + i, user, callType, checklistType, labels[i], false, parent)
    decreases |labels|
  {
    if labels != [] {
      var front := labels[..|labels| - 1];
      NewRowsAt(first, user, callType, checklistType, front, parent);
    }
  }

  /** `db.session.add` of one new row per label, then commit. */
  function Insert(t: Table, user: nat, callType: string, checklistType: string,
                  labels: seq<string>, parent: Option<nat>): Table
  {
    Table(t.rows + NewRows(t.nextId, user, callType, checklistType, labels, parent), t.nextId + |labels|)
  }

  // ---------------------------------------------------------------------
  // Deleting rows

  /** What the ORM does to the rows left behind when their parent is
      deleted without them: it clears their `parent_task_id`. */
  function Detach(rows: seq<Task>, gone: set<nat>): (r: seq<Task>)
    ensures |r| == |rows|
    ensures forall i :: 0 <= i < |rows| ==>
              r[i] == if rows[i].parentId.Some? && rows[i].parentId.value in gone
                      then rows[i].(parentId := None) else rows[i]
  {
    if rows == [] then []
    else
      var last := rows[|rows| - 1];
      Detach(rows[..|rows| - 1], gone)
      + [if last.parentId.Some? && last.parentId.value in gone then last.(parentId := None) else last]
  }

  function IdsOf(rows: seq<Task>): set<nat> {
    set x | x in rows :: x.id
  }

  /** `db.session.delete` of every selected row, then commit. */
  function Delete(rows: seq<Task>, sel: Selector): seq<Task> {
    Detach(Filter(rows, sel, false), IdsOf(Filter(rows, sel, true)))
  }

  // ---------------------------------------------------------------------
  // The routes

  /** The lower-cased test of `populate_default_tasks`: the objection task
      and its sub-checklist are added for these pairs. */
  predicate IsObjectionPair(callType: string, checklistType: string) {
    Lower(checklistType) == "start call" && (Lower(callType) == "sales" || Lower(callType) == "support")
  }

  /** The exact test of `toggle_task` for an objection task. */
  predicate IsObjectionTask(x: Task) {
    x.text == "Objection" && (x.callType == "sales" || x.callType == "support")
    && x.checklistType == "start call"
  }

  /** First half of `populate_default_tasks`: the template `labels` as
      top-level rows, only when the user has no top-level row in this
      checklist. */
  function Seeded(t: Table, user: nat, callType: string, checklistType: string,
                  labels: seq<string>): Table {
    if TopLevel(t.rows, user, callType, checklistType) == [] then
      Insert(t, user, callType, checklistType, labels, None)
    else t
  }

  /** Second half of `populate_default_tasks`: a top-level "Objection" row
      and, under it, the four objection subtasks. */
  function WithObjection(t: Table, user: nat, callType: string, checklistType: string): Table {
    var withTask := Insert(t, user, callType, checklistType, ["Objection"], None);
    Insert(withTask, user, callType, checklistType, ObjectionSubtasks, Some(t.nextId))
  }

  /** `populate_default_tasks` with the template `labels` and the outcome
      `objection` of its objection test. The objection part is not guarded
      by the seeding test. */
  function PopulatedWith(t: Table, user: nat, callType: string, checklistType: string,
                         labels: seq<string>, objection: bool): Table
  {
    var seeded := Seeded(t, user, callType, checklistType, labels);
    if objection then WithObjection(seeded, user, callType, checklistType) else seeded
  }

  /** `populate_default_tasks(user, callType, checklistType)`: the objection
      part runs on every call for a (lower-cased) sales or support start
      call. */
  function Populated(t: Table, user: nat, callType: string, checklistType: string): Table {
    PopulatedWith(t, user, callType, checklistType,
                  DefaultTasks(callType, checklistType), IsObjectionPair(callType, checklistType))
  }

  /** The `toggle_task` route. A missing or foreign task changes nothing.
      An objection task (exact text, sales/support, start call) gets the
      four objection subtasks when it has none and is otherwise left alone;
      any other task has its `done` flipped. */
  function Toggled(t: Table, user: nat, id: nat): (r: Table)
    ensures AccessTo(t.rows, user, id) != Granted ==> r == t
  {
    match IndexOf(t.rows, id)
    case None => t
    case Some(i) =>
      var x := t.rows[i];
      if x.userId != user then t
      else if IsObjectionTask(x) then
        if Subtasks(t.rows, id) == [] then
          Insert(t, user, x.callType, x.checklistType, ObjectionSubtasks, Some(id))
        else t
      else t.(rows := t.rows[i := x.(done := !x.done)])
  }

  /** The `toggle_subtask` route: flips `done` of the row whatever it is. */
  function SubtaskToggled(t: Table, user: nat, id: nat): (r: Table)
    ensures AccessTo(t.rows, user, id) != Granted ==> r == t
    ensures r.nextId == t.nextId && |r.rows| == |t.rows|
  {
    match IndexOf(t.rows, id)
    case None => t
    case Some(i) =>
      var x := t.rows[i];
      if x.userId != user then t
      else t.(rows := t.rows[i := x.(done := !x.done)])
  }

  /** The `add_task` route with the posted `task_text` (missing = ""). */
  function WithTaskAdded(t: Table, user: nat, callType: string, checklistType: string,
                         text: string): (r: Table)
    ensures AllSpace(text) ==> r == t
    ensures !AllSpace(text) ==>
              && |r.rows| == |t.rows| + 1 && r.rows[..|t.rows|] == t.rows
              && r.rows[|t.rows|] == Task(t.nextId, user, callType, checklistType, Strip(text), false, None)
              && r.nextId == t.nextId + 1
  {
    StripEmptyIff(text);
    var s := Strip(text);
    NewRowsAt(t.nextId, user, callType, checklistType, [s], None);
    if s == [] then t else Insert(t, user, callType, checklistType, [s], None)
  }

  /** The `edit_task` route. `posted` is None for a GET, which only shows
      the form; otherwise it is the posted `task_text` (missing = ""). */
  function Edited(t: Table, user: nat, id: nat, posted: Option<string>): (r: Table)
    ensures AccessTo(t.rows, user, id) != Granted ==> r == t
    ensures posted.None? || AllSpace(posted.value) ==> r == t
    ensures r.nextId == t.nextId && |r.rows| == |t.rows|
  {
    match IndexOf(t.rows, id)
    case None => t
    case Some(i) =>
      var x := t.rows[i];
      if x.userId != user || posted.None? then t
      else
        StripEmptyIff(posted.value);
        var s := Strip(posted.value);
        if s == [] then t else t.(rows := t.rows[i := x.(text := s)])
  }

  /** The `delete_task` route: the task and its direct subtasks go. */
  function Deleted(t: Table, user: nat, id: nat): (r: Table)
    ensures AccessTo(t.rows, user, id) != Granted ==> r == t
    ensures r.nextId == t.nextId
  {
    if AccessTo(t.rows, user, id) != Granted then t
    else t.(rows := Delete(t.rows, Family(id)))
  }

  /** The `new_call` route: every row of the user's checklist goes, then
      `populate_default_tasks` runs again. */
  function ResetForNewCall(t: Table, user: nat, callType: string, checklistType: string): Table {
    var cleared := t.(rows := Delete(t.rows, OfChecklist(user, callType, checklistType)));
    Populated(cleared, user, callType, checklistType)
  }
}
