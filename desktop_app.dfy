/** `ChecklistApp` of app.py without its widgets: the in-memory store of
    named checklists and the handlers that change it. What the dialogs and
    the combobox supply arrives as parameters: a dialog's answer is an
    `Option<string>` (None when cancelled), the selected checklist is a
    string ("" when nothing is selected), and the delete confirmation is a
    boolean. Saving to disk and redrawing are left out. */
module DesktopApp {
  import opened Wrappers
  import opened Strings
  import opened DesktopSpec

  /** The warning dialog a handler shows instead of changing anything. */
  datatype Warning =
    | NameTaken    // "A checklist with this name already exists"
    | NoSelection  // "Please select a checklist ..." / "No checklist selected"
    | EmptyTask    // "Task cannot be empty"

  /** How a handler ended: it changed the store, it returned silently
      without changing it, it showed a warning without changing it, or it
      raised `KeyError` because the combobox still showed a name that is no
      longer in the store (after the last checklist was deleted the
      combobox keeps its text), again without changing it. */
  datatype Outcome = Changed | Unchanged | Warned(warning: Warning) | KeyMissing

  /** The loop `for task in tasks: task['done'] = v`, task by task. */
  method MarkAll(ts: seq<Task>, v: bool) returns (r: seq<Task>)
    ensures r == WithAllDone(ts, v)
  {
    r := ts;
    var i := 0;
    while i < |r|
      invariant |r| == |ts| && 0 <= i <= |r|
      invariant forall j :: 0 <= j < i ==> r[j] == Task(ts[j].text, v)
      invariant forall j :: i <= j < |r| ==> r[j] == ts[j]
    {
      r := r[i := Task(r[i].text, v)];
      i := i + 1;
    }
    assert forall j :: 0 <= j < |r| ==> r[j] == WithAllDone(ts, v)[j];
  }

  /** `load_data`: `{}` when there is no data file (`stored` is None);
      otherwise the stored checklists, each one that has `daily_refresh`
      set and was last refreshed on a day other than `today` getting all
      its tasks marked not done and `last_refresh = today`. */
  method LoadData(stored: Option<Store>, today: string) returns (data: Store)
    ensures stored.None? ==> data == map[]
    ensures stored.Some? ==> data == DailyRefresh(stored.value, today)
  {
    if stored.None? {
      return map[];
    }
    data := stored.value;
    var pending := data.Keys;
    while pending != {}
      invariant data.Keys == stored.value.Keys && pending <= data.Keys
      invariant forall k :: k in data && k in pending ==> data[k] == stored.value[k]
      invariant forall k :: k in data && k !in pending ==>
                  data[k] == RefreshedForToday(stored.value[k], today)
      decreases pending
    {
      var name :| name in pending;
      var checklist := data[name];
      if checklist.dailyRefresh && checklist.lastRefresh != today {
        var tasks := MarkAll(checklist.tasks, false);
        data := data[name := Checklist(checklist.dailyRefresh, today, tasks)];
      }
      pending := pending - {name};
    }
  }

  class ChecklistApp {
    /** `self.checklists` */
    var checklists: Store

    /** `__init__` as far as the data goes: `self.checklists = load_data()`. */
    constructor (stored: Option<Store>, today: string)
      ensures stored.None? ==> checklists == map[]
      ensures stored.Some? ==> checklists == DailyRefresh(stored.value, today)
    {
      var data := LoadData(stored, today);
      checklists := data;
    }

    /** `create_checklist` with the dialog's answer `name`. An empty or
        cancelled name does nothing; an existing name warns and does
        nothing; otherwise exactly one checklist is added, with no tasks,
        `daily_refresh` false and `last_refresh` today. */
    method CreateChecklist(name: Option<string>, today: string) returns (outcome: Outcome)
      modifies this
      ensures name.None? || name.value == [] ==>
                outcome == Unchanged && checklists == old(checklists)
      ensures name.Some? && name.value != [] && name.value in old(checklists) ==>
                outcome == Warned(NameTaken) && checklists == old(checklists)
      ensures name.Some? && name.value != [] && name.value !in old(checklists) ==>
                && outcome == Changed
                && checklists == old(checklists)[name.value := NewChecklist(today)]
                && checklists.Keys == old(checklists).Keys + {name.value}
                && |checklists| == |old(checklists)| + 1
    {
      if name.None? || name.value == [] {
        return Unchanged;
      }
      if name.value in checklists {
        return Warned(NameTaken);
      }
      checklists := checklists[name.value := NewChecklist(today)];
      outcome := Changed;
    }

    /** `edit_checklist`: renames the selected checklist to the dialog's
        answer. Nothing selected warns; a cancelled, empty or identical
        name does nothing; a name already in use warns and does nothing;
        otherwise the old name is gone, the new one holds the identical
        record and the number of checklists is unchanged. */
    method EditChecklist(selected: string, newName: Option<string>) returns (outcome: Outcome)
      modifies this
      ensures selected == [] ==> outcome == Warned(NoSelection) && checklists == old(checklists)
      ensures selected != [] && (newName.None? || newName.value == [] || newName.value == selected) ==>
                outcome == Unchanged && checklists == old(checklists)
      ensures selected != [] && newName.Some? && newName.value != [] && newName.value != selected
              && newName.value in old(checklists) ==>
                outcome == Warned(NameTaken) && checklists == old(checklists)
      ensures selected != [] && newName.Some? && newName.value != [] && newName.value != selected
              && newName.value !in old(checklists) && selected !in old(checklists) ==>
                outcome == KeyMissing && checklists == old(checklists)
      ensures selected != [] && newName.Some? && newName.value != [] && newName.value != selected
              && newName.value !in old(checklists) && selected in old(checklists) ==>
                && outcome == Changed
                && checklists == Renamed(old(checklists), selected, newName.value)
                && selected !in checklists
                && checklists[newName.value] == old(checklists)[selected]
                && |checklists| == |old(checklists)|
    {
      if selected == [] {
        return Warned(NoSelection);
      }
      if newName.Some? && newName.value != [] && newName.value != selected {
        if newName.value in checklists {
          return Warned(NameTaken);
        }
        if selected !in checklists {
          return KeyMissing;
        }
        checklists := Renamed(checklists, selected, newName.value);
        return Changed;
      }
      outcome := Unchanged;
    }

    /** `delete_checklist`: removes the selected checklist when the user
        confirms. */
    method DeleteChecklist(selected: string, confirmed: bool) returns (outcome: Outcome)
      modifies this
      ensures selected == [] ==> outcome == Warned(NoSelection) && checklists == old(checklists)
      ensures selected != [] && !confirmed ==> outcome == Unchanged && checklists == old(checklists)
      ensures selected != [] && confirmed && selected !in old(checklists) ==>
                outcome == KeyMissing && checklists == old(checklists)
      ensures selected != [] && confirmed && selected in old(checklists) ==>
                && outcome == Changed
                && checklists == old(checklists) - {selected}
                && |checklists| == |old(checklists)| - 1
    {
      if selected == [] {
        return Warned(NoSelection);
      }
      if confirmed {
        if selected !in checklists {
          return KeyMissing;
        }
        checklists := checklists - {selected};
        return Changed;
      }
      outcome := Unchanged;
    }

    /** `add_task` with the entry's text. Text that strips to "" warns,
        then no selection warns; otherwise the selected checklist gains one
        task at the end, holding the stripped text and not done. */
    method AddTask(entry: string, selected: string) returns (outcome: Outcome)
      modifies this
      ensures Strip(entry) == [] ==> outcome == Warned(EmptyTask) && checklists == old(checklists)
      ensures Strip(entry) != [] && selected == [] ==>
                outcome == Warned(NoSelection) && checklists == old(checklists)
      ensures Strip(entry) != [] && selected != [] && selected !in old(checklists) ==>
                outcome == KeyMissing && checklists == old(checklists)
      ensures Strip(entry) != [] && selected != [] && selected in old(checklists) ==>
                var c := old(checklists)[selected];
                && outcome == Changed
                && checklists == old(checklists)[selected := c.(tasks := c.tasks + [Task(Strip(entry), false)])]
    {
      var text := Strip(entry);
      if text == [] {
        return Warned(EmptyTask);
      }
      if selected == [] {
        return Warned(NoSelection);
      }
      if selected !in checklists {
        return KeyMissing;
      }
      var c := checklists[selected];
      checklists := checklists[selected := c.(tasks := c.tasks + [Task(text, false)])];
      outcome := Changed;
    }

    /** `toggle_task(name, index)`: flips that task's `done` and nothing else. */
    method ToggleTask(name: string, index: nat)
      requires name in checklists && index < |checklists[name].tasks|
      modifies this
      ensures var c := old(checklists)[name];
              checklists == old(checklists)[name := c.(tasks := Flip(c.tasks, index))]
    {
      var c := checklists[name];
      checklists := checklists[name := c.(tasks := Flip(c.tasks, index))];
    }

    /** `edit_task(name, index)` with the dialog's answer: any answer that is
        not a cancel replaces the text as typed (even "" or padded with
        spaces) and keeps `done`; a cancel changes nothing. */
    method EditTask(name: string, index: nat, newText: Option<string>) returns (outcome: Outcome)
      requires name in checklists && index < |checklists[name].tasks|
      modifies this
      ensures newText.None? ==> outcome == Unchanged && checklists == old(checklists)
      ensures newText.Some? ==>
                var c := old(checklists)[name];
                && outcome == Changed
                && checklists == old(checklists)[name := c.(tasks := SetText(c.tasks, index, newText.value))]
    {
      if newText.None? {
        return Unchanged;
      }
      var c := checklists[name];
      checklists := checklists[name := c.(tasks := SetText(c.tasks, index, newText.value))];
      outcome := Changed;
    }

    /** `delete_task(name, index)`: removes exactly that task. */
    method DeleteTask(name: string, index: nat)
      requires name in checklists && index < |checklists[name].tasks|
      modifies this
      ensures var c := old(checklists)[name];
              checklists == old(checklists)[name := c.(tasks := RemoveAt(c.tasks, index))]
    {
      var c := checklists[name];
      checklists := checklists[name := c.(tasks := RemoveAt(c.tasks, index))];
    }

    /** `refresh_checklist`: every task of the selected checklist not done. */
    method RefreshChecklist(selected: string) returns (outcome: Outcome)
      modifies this
      ensures selected == [] ==> outcome == Warned(NoSelection) && checklists == old(checklists)
      ensures selected != [] && selected !in old(checklists) ==>
                outcome == KeyMissing && checklists == old(checklists)
      ensures selected != [] && selected in old(checklists) ==>
                var c := old(checklists)[selected];
                && outcome == Changed
                && checklists == old(checklists)[selected := c.(tasks := WithAllDone(c.tasks, false))]
    {
      if selected == [] {
        return Warned(NoSelection);
      }
      if selected !in checklists {
        return KeyMissing;
      }
      var c := checklists[selected];
      var tasks := MarkAll(c.tasks, false);
      checklists := checklists[selected := c.(tasks := tasks)];
      outcome := Changed;
    }

    /** `complete_all_tasks`: every task of the selected checklist done. */
    method CompleteAllTasks(selected: string) returns (outcome: Outcome)
      modifies this
      ensures selected == [] ==> outcome == Warned(NoSelection) && checklists == old(checklists)
      ensures selected != [] && selected !in old(checklists) ==>
                outcome == KeyMissing && checklists == old(checklists)
      ensures selected != [] && selected in old(checklists) ==>
                var c := old(checklists)[selected];
                && outcome == Changed
                && checklists == old(checklists)[selected := c.(tasks := WithAllDone(c.tasks, true))]
    {
      if selected == [] {
        return Warned(NoSelection);
      }
      if selected !in checklists {
        return KeyMissing;
      }
      var c := checklists[selected];
      var tasks := MarkAll(c.tasks, true);
      checklists := checklists[selected := c.(tasks := tasks)];
      outcome := Changed;
    }
  }
}
