/** The `Task` table of the call-checklist web application
    (your_project/app.py) as a store that the routes change in place, one
    `db.session.add` or `db.session.delete` at a time. Each route is proved
    to leave the store in the state the corresponding function of
    `TaskTable` describes, and to keep the table invariant. The logged-in
    user arrives as the parameter `user`; the posted form field `task_text`
    arrives as a string ("" when the field is missing). */
module TaskStore {
  import opened Wrappers
  import opened Strings
  import opened Templates
  import opened TaskTable
  import opened TaskFacts

  /** The rows a deletion keeps and the rows it removes, each in id order. */
  method Partition(rows: seq<Task>, sel: Selector) returns (kept: seq<Task>, removed: seq<Task>)
    ensures kept == Filter(rows, sel, false) && removed == Filter(rows, sel, true)
  {
    kept, removed := [], [];
    var i := 0;
    while i < |rows|
      invariant 0 <= i <= |rows|
      invariant kept == Filter(rows[..i], sel, false)
      invariant removed == Filter(rows[..i], sel, true)
    {
      assert rows[..i + 1][..i] == rows[..i];
      if Selects(sel, rows[i]) {
        removed := removed + [rows[i]];
      } else {
        kept := kept + [rows[i]];
      }
      i := i + 1;
    }
    assert rows[..i] == rows;
  }

  /** What the ORM does on the commit to each row left behind: a row whose
      parent id is among the `gone` ids has it cleared. */
  method ClearParents(kept: seq<Task>, gone: set<nat>) returns (left: seq<Task>)
    ensures left == Detach(kept, gone)
  {
    left := [];
    var j := 0;
    while j < |kept|
      invariant 0 <= j <= |kept|
      invariant left == Detach(kept[..j], gone)
    {
      assert kept[..j + 1][..j] == kept[..j];
      var x := kept[j];
      if x.parentId.Some? && x.parentId.value in gone {
        x := x.(parentId := None);
      }
      left := left + [x];
      j := j + 1;
    }
    assert kept[..j] == kept;
  }

  class TaskStore {
    /** The rows of the table, in id order. */
    var rows: seq<Task>
    /** The id the database assigns to the next inserted row. */
    var nextId: nat

    function State(): Table
      reads this
    {
      Table(rows, nextId)
    }

    ghost predicate Valid()
      reads this
    {
      WellFormed(State())
    }

    /** An empty table; SQLite numbers rows from 1. */
    constructor ()
      ensures State() == Table([], 1) && Valid()
    {
      rows := [];
      nextId := 1;
    }

    /** One `Task(...)` and `db.session.add` per label, in label order,
        then the commit that assigns their ids. */
    method AddRows(user: nat, callType: string, checklistType: string,
                   labels: seq<string>, parent: Option<nat>)
      modifies this
      ensures State() == Insert(old(State()), user, callType, checklistType, labels, parent)
    {
      var k := 0;
      while k < |labels|
        invariant 0 <= k <= |labels|
        invariant rows == old(rows) + NewRows(old(nextId), user, callType, checklistType, labels[..k], parent)
        invariant nextId == old(nextId) + k
      {
        assert labels[..k + 1][..k] == labels[..k];
        rows := rows + [Task(nextId, user, callType, checklistType, labels[k], false, parent)];
        nextId := nextId + 1;
        k := k + 1;
      }
      assert labels[..k] == labels;
    }

    /** `db.session.delete` of every row the selector picks, then the
        commit: the rows left keep their order, and the ORM clears the
        `parent_task_id` of every row left whose parent was deleted. */
    method DeleteRows(sel: Selector)
      modifies this
      ensures State() == old(State()).(rows := Delete(old(rows), sel))
    {
      var kept, removed := Partition(rows, sel);
      var left := ClearParents(kept, IdsOf(removed));
      rows := left;
    }
    /** `populate_default_tasks(user, callType, checklistType)`. */
    method PopulateDefaultTasks(user: nat, callType: string, checklistType: string)
      requires Valid()
      modifies this
      ensures Valid()
      ensures State() == Populated(old(State()), user, callType, checklistType)
    {
      ghost var before := State();
      if TopLevel(rows, user, callType, checklistType) == [] {
        AddRows(user, callType, checklistType, DefaultTasks(callType, checklistType), None);
      }
      if IsObjectionPair(callType, checklistType) {
        var objectionId := nextId;
        AddRows(user, callType, checklistType, ["Objection"], None);
        AddRows(user, callType, checklistType, ObjectionSubtasks, Some(objectionId));
      }
      PopulatedWellFormed(before, user, callType, checklistType);
    }

    /** The `checklist` route: populate, then list the user's top-level
        tasks of the checklist in id order. */
    method Checklist(user: nat, callType: string, checklistType: string) returns (tasks: seq<Task>)
      requires Valid()
      modifies this
      ensures Valid()
      ensures State() == Populated(old(State()), user, callType, checklistType)
      ensures tasks == TopLevel(rows, user, callType, checklistType)
    {
      PopulateDefaultTasks(user, callType, checklistType);
      tasks := TopLevel(rows, user, callType, checklistType);
    }

    /** The `toggle_task` route; the result says whether the task was found
        and owned (`get_or_404`, then "Unauthorized"). */
    method ToggleTask(user: nat, id: nat) returns (access: Access)
      requires Valid()
      modifies this
      ensures Valid()
      ensures access == AccessTo(old(rows), user, id)
      ensures State() == Toggled(old(State()), user, id)
    {
      ghost var before := State();
      var found := IndexOf(rows, id);
      if found.None? {
        return NotFound;
      }
      var i := found.value;
      var task := rows[i];
      if task.userId != user {
        return Unauthorized;
      }
      if IsObjectionTask(task) {
        if Subtasks(rows, id) == [] {
          AddRows(user, task.callType, task.checklistType, ObjectionSubtasks, Some(id));
        }
      } else {
        rows := rows[i := task.(done := !task.done)];
      }
      ToggledWellFormed(before, user, id);
      access := Granted;
    }

    /** The `toggle_subtask` route. The flip is committed before the parent
        is looked up, so a row without a parent is flipped and then the
        request fails (`parentMissing`). */
    method ToggleSubtask(user: nat, id: nat) returns (access: Access, parentMissing: bool)
      requires Valid()
      modifies this
      ensures Valid()
      ensures access == AccessTo(old(rows), user, id)
      ensures parentMissing <==>
                access == Granted && exists i :: 0 <= i < |old(rows)| && old(rows)[i].id == id
                                                 && old(rows)[i].parentId.None?
      ensures State() == SubtaskToggled(old(State()), user, id)
    {
      ghost var before := State();
      var found := IndexOf(rows, id);
      if found.None? {
        return NotFound, false;
      }
      var i := found.value;
      var subtask := rows[i];
      if subtask.userId != user {
        return Unauthorized, false;
      }
      rows := rows[i := subtask.(done := !subtask.done)];
      SubtaskToggledWellFormed(before, user, id);
      IndexOfRow(before.rows, i);
      access, parentMissing := Granted, subtask.parentId.None?;
    }

    /** The `add_task` route with the posted text; `added` says whether the
        "Task added" path was taken. */
    method AddTask(user: nat, callType: string, checklistType: string, posted: string)
      returns (added: bool)
      requires Valid()
      modifies this
      ensures Valid()
      ensures added <==> !AllSpace(posted)
      ensures State() == WithTaskAdded(old(State()), user, callType, checklistType, posted)
    {
      ghost var before := State();
      StripEmptyIff(posted);
      var text := Strip(posted);
      if text == [] {
        added := false;
      } else {
        AddRows(user, callType, checklistType, [text], None);
        added := true;
      }
      WithTaskAddedWellFormed(before, user, callType, checklistType, posted);
    }

    /** The `delete_task` route: the task's subtasks and then the task. */
    method DeleteTask(user: nat, id: nat) returns (access: Access)
      requires Valid()
      modifies this
      ensures Valid()
      ensures access == AccessTo(old(rows), user, id)
      ensures State() == Deleted(old(State()), user, id)
    {
      ghost var before := State();
      access := AccessTo(rows, user, id);
      if access == Granted {
        DeleteRows(Family(id));
      }
      DeletedWellFormed(before, user, id);
    }

    /** The `edit_task` route. `posted` is None for a GET; `updated` says
        whether the "Task updated" path was taken. */
    method EditTask(user: nat, id: nat, posted: Option<string>) returns (access: Access, updated: bool)
      requires Valid()
      modifies this
      ensures Valid()
      ensures access == AccessTo(old(rows), user, id)
      ensures updated <==> access == Granted && posted.Some? && !AllSpace(posted.value)
      ensures State() == Edited(old(State()), user, id, posted)
    {
      ghost var before := State();
      var found := IndexOf(rows, id);
      if found.None? {
        return NotFound, false;
      }
      var i := found.value;
      var task := rows[i];
      if task.userId != user {
        return Unauthorized, false;
      }
      access, updated := Granted, false;
      if posted.Some? {
        StripEmptyIff(posted.value);
        var text := Strip(posted.value);
        if text != [] {
          rows := rows[i := task.(text := text)];
          updated := true;
        }
      }
      EditedWellFormed(before, user, id, posted);
    }

    /** The `new_call` route: every row of the user's checklist is deleted,
        then the checklist is populated again. */
    method NewCall(user: nat, callType: string, checklistType: string)
      requires Valid()
      modifies this
      ensures Valid()
      ensures State() == ResetForNewCall(old(State()), user, callType, checklistType)
    {
      ghost var before := State();
      DeleteRows(OfChecklist(user, callType, checklistType));
      DeleteWellFormed(before, OfChecklist(user, callType, checklistType));
      PopulateDefaultTasks(user, callType, checklistType);
    }
  }
}
