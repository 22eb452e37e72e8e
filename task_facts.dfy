/** What the routes of the call-checklist application guarantee about the
    task table, proved about the functions of `TaskTable`. */
module TaskFacts {
  import opened Wrappers
  import opened Strings
  import opened Templates
  import opened TaskTable

  // ---------------------------------------------------------------------
  // Queries and inserted rows

  /** Querying a concatenation queries each part. */
  lemma {:induction false} FilterConcat(a: seq<Task>, b: seq<Task>, sel: Selector, keep: bool)
    ensures Filter(a + b, sel, keep) == Filter(a, sel, keep) + Filter(b, sel, keep)
    decreases |b|
  {
    if b == [] {
      assert a + b == a;
    } else {
      var front := b[..|b| - 1];
      assert (a + b)[..|a + b| - 1] == a + front;
      FilterConcat(a, front, sel, keep);
    }
  }

  /** A query keeps id order. */
  lemma {:induction false} FilterAscending(rows: seq<Task>, sel: Selector, keep: bool)
    requires AscendingIds(rows)
    ensures AscendingIds(Filter(rows, sel, keep))
    decreases |rows|
  {
    if rows != [] {
      var front := rows[..|rows| - 1];
      FilterAscending(front, sel, keep);
      FilterMembers(front, sel, keep);
      var f := Filter(front, sel, keep);
      var last := rows[|rows| - 1];
      forall x | x in f ensures x.id < last.id {
        var k :| 0 <= k < |front| && front[k] == x;
      }
    }
  }

  /** A query that every row answers the same way returns all or nothing. */
  lemma {:induction false} FilterUniform(rows: seq<Task>, sel: Selector, keep: bool)
    requires forall i :: 0 <= i < |rows| ==> Selects(sel, rows[i]) == keep
    ensures Filter(rows, sel, keep) == rows
    ensures Filter(rows, sel, !keep) == []
    decreases |rows|
  {
    if rows != [] {
      var front := rows[..|rows| - 1];
      FilterUniform(front, sel, keep);
      assert rows == front + [rows[|rows| - 1]];
    }
  }

  /** In a table with ascending ids a row's id finds exactly that row. */
  lemma IndexOfRow(rows: seq<Task>, i: nat)
    requires AscendingIds(rows) && i < |rows|
    ensures IndexOf(rows, rows[i].id) == Some(i)
  {
    var k := IndexOf(rows, rows[i].id);
    assert k.Some? && k.value <= i;
  }

  /** Ids are unique: two rows of such a table with one id are one row. */
  lemma SameIdSameRow(rows: seq<Task>, x: Task, y: Task)
    requires AscendingIds(rows) && x in rows && y in rows
    ensures x.id == y.id ==> x == y
  {
    var a :| 0 <= a < |rows| && rows[a] == x;
    var b :| 0 <= b < |rows| && rows[b] == y;
  }

  // ---------------------------------------------------------------------
  // The table invariant is kept by every route

  /** Inserting rows keeps the invariant when their parent, if any, is an
      existing row of the same user's checklist. */
  lemma InsertWellFormed(t: Table, user: nat, callType: string, checklistType: string,
                         labels: seq<string>, parent: Option<nat>)
    requires WellFormed(t)
    requires parent.Some? ==>
      exists p :: p in t.rows && p.id == parent.value
                  && p.userId == user && p.callType == callType && p.checklistType == checklistType
    ensures WellFormed(Insert(t, user, callType, checklistType, labels, parent))
  {
    NewRowsAt(t.nextId, user, callType, checklistType, labels, parent);
    var added := NewRows(t.nextId, user, callType, checklistType, labels, parent);
    var r := Insert(t, user, callType, checklistType, labels, parent);
    assert r.rows == t.rows + added;
    forall i, j | 0 <= i < j < |r.rows| ensures r.rows[i].id < r.rows[j].id {
      if j < |t.rows| {
        assert r.rows[i] == t.rows[i] && r.rows[j] == t.rows[j];
      } else if i < |t.rows| {
        assert r.rows[i] == t.rows[i];
      }
    }
    forall x | x in r.rows && x.parentId.Some?
      ensures x.parentId.value < x.id && HasParent(r.rows, x)
    {
      if x in t.rows {
        assert HasParent(t.rows, x);
        var p :| p in t.rows && p.id == x.parentId.value && SameChecklist(p, x);
        assert p in r.rows;
      } else {
        var k :| 0 <= k < |added| && added[k] == x;
        var p :| p in t.rows && p.id == parent.value
                 && p.userId == user && p.callType == callType && p.checklistType == checklistType;
        var m :| 0 <= m < |t.rows| && t.rows[m] == p;
        assert p in r.rows;
      }
    }
  }

  /** Replacing one row by a row with the same id, parent and checklist
      (a toggle or an edit) keeps the invariant. */
  lemma UpdateWellFormed(t: Table, i: nat, y: Task)
    requires WellFormed(t) && i < |t.rows|
    requires y.id == t.rows[i].id && y.parentId == t.rows[i].parentId && SameChecklist(y, t.rows[i])
    ensures WellFormed(t.(rows := t.rows[i := y]))
  {
    var rows := t.rows[i := y];
    assert AscendingIds(rows) by {
      forall a, b | 0 <= a < b < |rows| ensures rows[a].id < rows[b].id {
        assert rows[a].id == t.rows[a].id && rows[b].id == t.rows[b].id;
      }
    }
    assert forall k :: 0 <= k < |rows| ==> rows[k].id < t.nextId by {
      forall k | 0 <= k < |rows| ensures rows[k].id < t.nextId {
        assert rows[k].id == t.rows[k].id;
      }
    }
    forall x | x in rows && x.parentId.Some? ensures x.parentId.value < x.id && HasParent(rows, x) {
      var k :| 0 <= k < |rows| && rows[k] == x;
      UpdateKeepsParent(t, i, y, k);
    }
  }

  /** After such a replacement every row still finds its parent. */
  lemma UpdateKeepsParent(t: Table, i: nat, y: Task, k: nat)
    requires WellFormed(t) && i < |t.rows|
    requires y.id == t.rows[i].id && y.parentId == t.rows[i].parentId && SameChecklist(y, t.rows[i])
    requires k < |t.rows| && t.rows[i := y][k].parentId.Some?
    ensures var rows := t.rows[i := y];
            rows[k].parentId.value < rows[k].id && HasParent(rows, rows[k])
  {
    var rows := t.rows[i := y];
    var old_x := t.rows[k];
    assert old_x in t.rows && HasParent(t.rows, old_x);
    var p :| p in t.rows && p.id == old_x.parentId.value && SameChecklist(p, old_x);
    var m :| 0 <= m < |t.rows| && t.rows[m] == p;
    assert rows[m].id == p.id && SameChecklist(rows[m], rows[k]);
    assert rows[m] in rows;
  }

  /** Deleting the selected rows, with the ORM clearing the parent of the
      rows they leave behind, keeps the invariant. */
  lemma DeleteWellFormed(t: Table, sel: Selector)
    requires WellFormed(t)
    ensures WellFormed(t.(rows := Delete(t.rows, sel)))
  {
    var r := Delete(t.rows, sel);
    DeleteKeepsOrder(t, sel);
    forall x | x in r && x.parentId.Some? ensures x.parentId.value < x.id && HasParent(r, x) {
      var k :| 0 <= k < |r| && r[k] == x;
      DeleteKeepsParent(t, sel, k);
    }
  }

  /** The rows left by a deletion keep ascending ids below `nextId`. */
  lemma DeleteKeepsOrder(t: Table, sel: Selector)
    requires WellFormed(t)
    ensures var r := Delete(t.rows, sel);
            AscendingIds(r) && forall k :: 0 <= k < |r| ==> r[k].id < t.nextId
  {
    var kept := Filter(t.rows, sel, false);
    var gone := IdsOf(Filter(t.rows, sel, true));
    var r := Detach(kept, gone);
    assert AscendingIds(r) by {
      FilterAscending(t.rows, sel, false);
      assert forall k :: 0 <= k < |r| ==> r[k].id == kept[k].id;
    }
    assert forall k :: 0 <= k < |r| ==> r[k].id < t.nextId by {
      FilterMembers(t.rows, sel, false);
      forall k | 0 <= k < |r| ensures r[k].id < t.nextId {
        assert r[k].id == kept[k].id && kept[k] in t.rows;
      }
    }
  }

  /** A row that keeps its parent through a deletion still finds that
      parent among the rows left. */
  lemma DeleteKeepsParent(t: Table, sel: Selector, k: nat)
    requires WellFormed(t)
    requires k < |Delete(t.rows, sel)| && Delete(t.rows, sel)[k].parentId.Some?
    ensures var r := Delete(t.rows, sel);
            r[k].parentId.value < r[k].id && HasParent(r, r[k])
  {
    var kept := Filter(t.rows, sel, false);
    var gone := IdsOf(Filter(t.rows, sel, true));
    var r := Detach(kept, gone);
    FilterMembers(t.rows, sel, false);
    FilterMembers(t.rows, sel, true);
    var y := kept[k];
    assert r[k] == y && y.parentId.value !in gone;
    assert y in kept && y in t.rows;
    var p :| p in t.rows && p.id == y.parentId.value && SameChecklist(p, y);
    assert p in Filter(t.rows, sel, true) ==> p.id in gone;
    assert p in kept;
    var m :| 0 <= m < |kept| && kept[m] == p;
    assert r[m].id == p.id && SameChecklist(r[m], y);
    assert r[m] in r;
  }

  /** `populate_default_tasks` keeps the invariant. */
  lemma PopulatedWellFormed(t: Table, user: nat, callType: string, checklistType: string)
    requires WellFormed(t)
    ensures WellFormed(Populated(t, user, callType, checklistType))
  {
    PopulatedWithWellFormed(t, user, callType, checklistType,
                            DefaultTasks(callType, checklistType), IsObjectionPair(callType, checklistType));
  }

  /** ... for any template and either outcome of the objection test. */
  lemma PopulatedWithWellFormed(t: Table, user: nat, callType: string, checklistType: string,
                                labels: seq<string>, objection: bool)
    requires WellFormed(t)
    ensures WellFormed(PopulatedWith(t, user, callType, checklistType, labels, objection))
  {
    var seeded := Seeded(t, user, callType, checklistType, labels);
    if TopLevel(t.rows, user, callType, checklistType) == [] {
      InsertWellFormed(t, user, callType, checklistType, labels, None);
    }
    if objection {
      var withTask := Insert(seeded, user, callType, checklistType, ["Objection"], None);
      InsertWellFormed(seeded, user, callType, checklistType, ["Objection"], None);
      var task := Task(seeded.nextId, user, callType, checklistType, "Objection", false, None);
      assert withTask.rows[|seeded.rows|] == task;
      InsertWellFormed(withTask, user, callType, checklistType, ObjectionSubtasks, Some(seeded.nextId));
    }
  }

  /** `toggle_task` keeps the invariant. */
  lemma ToggledWellFormed(t: Table, user: nat, id: nat)
    requires WellFormed(t)
    ensures WellFormed(Toggled(t, user, id))
  {
    match IndexOf(t.rows, id)
    case None =>
    case Some(i) =>
      var x := t.rows[i];
      if x.userId == user {
        if IsObjectionTask(x) {
          InsertWellFormed(t, user, x.callType, x.checklistType, ObjectionSubtasks, Some(id));
        } else {
          UpdateWellFormed(t, i, x.(done := !x.done));
        }
      }
  }

  /** `toggle_subtask` keeps the invariant. */
  lemma SubtaskToggledWellFormed(t: Table, user: nat, id: nat)
    requires WellFormed(t)
    ensures WellFormed(SubtaskToggled(t, user, id))
  {
    match IndexOf(t.rows, id)
    case None =>
    case Some(i) =>
      UpdateWellFormed(t, i, t.rows[i].(done := !t.rows[i].done));
  }

  /** `add_task` keeps the invariant. */
  lemma WithTaskAddedWellFormed(t: Table, user: nat, callType: string, checklistType: string, text: string)
    requires WellFormed(t)
    ensures WellFormed(WithTaskAdded(t, user, callType, checklistType, text))
  {
    InsertWellFormed(t, user, callType, checklistType, [Strip(text)], None);
  }

  /** `edit_task` keeps the invariant. */
  lemma EditedWellFormed(t: Table, user: nat, id: nat, posted: Option<string>)
    requires WellFormed(t)
    ensures WellFormed(Edited(t, user, id, posted))
  {
    match IndexOf(t.rows, id)
    case None =>
    case Some(i) =>
      if posted.Some? {
        UpdateWellFormed(t, i, t.rows[i].(text := Strip(posted.value)));
      }
  }

  /** `delete_task` keeps the invariant. */
  lemma DeletedWellFormed(t: Table, user: nat, id: nat)
    requires WellFormed(t)
    ensures WellFormed(Deleted(t, user, id))
  {
    DeleteWellFormed(t, Family(id));
  }

  /** `new_call` keeps the invariant. */
  lemma ResetWellFormed(t: Table, user: nat, callType: string, checklistType: string)
    requires WellFormed(t)
    ensures WellFormed(ResetForNewCall(t, user, callType, checklistType))
  {
    var sel := OfChecklist(user, callType, checklistType);
    DeleteWellFormed(t, sel);
    PopulatedWellFormed(t.(rows := Delete(t.rows, sel)), user, callType, checklistType);
  }

  // ---------------------------------------------------------------------
  // populate_default_tasks

  /** `populate_default_tasks` never changes an existing row: it only adds
      rows at the end, one id per row. */
  lemma PopulateOnlyAppends(t: Table, user: nat, callType: string, checklistType: string)
    ensures var r := Populated(t, user, callType, checklistType);
            && |t.rows| <= |r.rows| && r.rows[..|t.rows|] == t.rows
            && t.nextId <= r.nextId && |r.rows| - |t.rows| == r.nextId - t.nextId
  {
    var labels := DefaultTasks(callType, checklistType);
    var seeded := Seeded(t, user, callType, checklistType, labels);
    assert seeded.rows[..|t.rows|] == t.rows;
    var withTask := Insert(seeded, user, callType, checklistType, ["Objection"], None);
    assert withTask.rows[..|t.rows|] == t.rows;
    var r := Insert(withTask, user, callType, checklistType, ObjectionSubtasks, Some(seeded.nextId));
    assert r.rows[..|t.rows|] == t.rows;
  }

  /** When the user has no top-level task in the checklist, the template
      labels are added, in order, as top-level tasks that are not done, and
      (for a sales or support start call) the objection task and its four
      subtasks follow them. */
  lemma PopulateFresh(t: Table, user: nat, callType: string, checklistType: string)
    requires TopLevel(t.rows, user, callType, checklistType) == []
    ensures var labels := DefaultTasks(callType, checklistType);
            var r := Populated(t, user, callType, checklistType);
            if IsObjectionPair(callType, checklistType) then
              r.rows == t.rows + NewRows(t.nextId, user, callType, checklistType, labels + ["Objection"], None)
                        + NewRows(t.nextId + |labels| + 1, user, callType, checklistType,
                                  ObjectionSubtasks, Some(t.nextId + |labels|))
            else
              r.rows == t.rows + NewRows(t.nextId, user, callType, checklistType, labels, None)
  {
    PopulateWithFresh(t, user, callType, checklistType,
                      DefaultTasks(callType, checklistType), IsObjectionPair(callType, checklistType));
  }

  lemma PopulateWithFresh(t: Table, user: nat, callType: string, checklistType: string,
                          labels: seq<string>, objection: bool)
    requires TopLevel(t.rows, user, callType, checklistType) == []
    ensures var r := PopulatedWith(t, user, callType, checklistType, labels, objection);
            if objection then
              r.rows == t.rows + NewRows(t.nextId, user, callType, checklistType, labels + ["Objection"], None)
                        + NewRows(t.nextId + |labels| + 1, user, callType, checklistType,
                                  ObjectionSubtasks, Some(t.nextId + |labels|))
            else
              r.rows == t.rows + NewRows(t.nextId, user, callType, checklistType, labels, None)
  {
    var seeded := Insert(t, user, callType, checklistType, labels, None);
    assert Seeded(t, user, callType, checklistType, labels) == seeded;
    if objection {
      SeedAndObjection(t, user, callType, checklistType, labels);
    }
  }

  /** The rows of the template, then the "Objection" row, then its four
      subtasks, with consecutive ids. */
  lemma SeedAndObjection(t: Table, user: nat, callType: string, checklistType: string,
                         labels: seq<string>)
    ensures var n := t.nextId + |labels|;
            WithObjection(Insert(t, user, callType, checklistType, labels, None), user, callType, checklistType).rows
            == t.rows + NewRows(t.nextId, user, callType, checklistType, labels + ["Objection"], None)
               + NewRows(n + 1, user, callType, checklistType, ObjectionSubtasks, Some(n))
  {
    var n := t.nextId + |labels|;
    var seeded := Insert(t, user, callType, checklistType, labels, None);
    var top := NewRows(t.nextId, user, callType, checklistType, labels + ["Objection"], None);
    var withTask := Insert(seeded, user, callType, checklistType, ["Objection"], None);
    assert withTask.rows == t.rows + top by {
      SeedThenObjection(t.rows, t.nextId, user, callType, checklistType, labels);
    }
  }

  /** The template rows followed by the "Objection" row are the rows of the
      template with "Objection" appended. */
  lemma SeedThenObjection(rows: seq<Task>, first: nat, user: nat, callType: string,
                          checklistType: string, labels: seq<string>)
    ensures rows + NewRows(first, user, callType, checklistType, labels, None)
                 + NewRows(first + |labels|, user, callType, checklistType, ["Objection"], None)
            == rows + NewRows(first, user, callType, checklistType, labels + ["Objection"], None)
  {
    var task := Task(first + |labels|, user, callType, checklistType, "Objection", false, None);
    assert (labels + ["Objection"])[..|labels|] == labels;
    assert NewRows(first + |labels|, user, callType, checklistType, ["Objection"], None) == [task] by {
      assert ["Objection"][..0] == [];
    }
  }

  /** When the user already has a top-level task in the checklist, the
      template is not seeded again; a sales or support start call still
      gets one more "Objection" task with four more subtasks on every
      call, and any other checklist is left exactly as it was. */
  lemma PopulateAgain(t: Table, user: nat, callType: string, checklistType: string)
    requires TopLevel(t.rows, user, callType, checklistType) != []
    ensures var r := Populated(t, user, callType, checklistType);
            if IsObjectionPair(callType, checklistType) then
              && r.rows == t.rows + [Task(t.nextId, user, callType, checklistType, "Objection", false, None)]
                           + NewRows(t.nextId + 1, user, callType, checklistType, ObjectionSubtasks, Some(t.nextId))
              && TopLevel(r.rows, user, callType, checklistType)
                 == TopLevel(t.rows, user, callType, checklistType)
                    + [Task(t.nextId, user, callType, checklistType, "Objection", false, None)]
            else r == t
  {
    if IsObjectionPair(callType, checklistType) {
      var objection := Task(t.nextId, user, callType, checklistType, "Objection", false, None);
      var subs := NewRows(t.nextId + 1, user, callType, checklistType, ObjectionSubtasks, Some(t.nextId));
      var r := Populated(t, user, callType, checklistType);
      assert r.rows == t.rows + [objection] + subs by {
        NewRowsAt(t.nextId, user, callType, checklistType, ["Objection"], None);
      }
      NewRowsAt(t.nextId + 1, user, callType, checklistType, ObjectionSubtasks, Some(t.nextId));
      var sel := TopLevelOf(user, callType, checklistType);
      FilterConcat(t.rows + [objection], subs, sel, true);
      FilterConcat(t.rows, [objection], sel, true);
      FilterUniform(subs, sel, false);
      FilterUniform([objection], sel, true);
    }
  }

  /** Outside sales and support start calls, opening the checklist a second
      time adds nothing. */
  lemma PopulateTwiceNoOp(t: Table, user: nat, callType: string, checklistType: string)
    requires !IsObjectionPair(callType, checklistType)
    ensures var once := Populated(t, user, callType, checklistType);
            Populated(once, user, callType, checklistType) == once
  {
    var once := Populated(t, user, callType, checklistType);
    var labels := DefaultTasks(callType, checklistType);
    if TopLevel(t.rows, user, callType, checklistType) == [] {
      if labels == [] {
        assert once.rows == t.rows + [];
      } else {
        var first := Task(t.nextId, user, callType, checklistType, labels[0], false, None);
        NewRowsAt(t.nextId, user, callType, checklistType, labels, None);
        assert once.rows[|t.rows|] == first;
        FilterMembers(once.rows, TopLevelOf(user, callType, checklistType), true);
        assert first in TopLevel(once.rows, user, callType, checklistType);
      }
    }
  }

  /** No row of a well-formed table hangs under an id not yet assigned. */
  lemma NoSubtasksOfUnassigned(t: Table, n: nat)
    requires WellFormed(t) && t.nextId <= n
    ensures forall i :: 0 <= i < |t.rows| ==> !Selects(SubtasksOf(n), t.rows[i])
  {
    forall i | 0 <= i < |t.rows| ensures !Selects(SubtasksOf(n), t.rows[i]) {
      assert t.rows[i] in t.rows;
    }
  }

  /** Querying three concatenated parts queries each part. */
  lemma FilterOfThree(a: seq<Task>, b: seq<Task>, c: seq<Task>, sel: Selector)
    ensures Filter(a + b + c, sel, true) == Filter(a, sel, true) + Filter(b, sel, true) + Filter(c, sel, true)
  {
    FilterConcat(a + b, c, sel, true);
    FilterConcat(a, b, sel, true);
  }

  /** Rows with no top-level task of a checklist, followed by a top-level
      batch ending in "Objection" and a batch of that task's subtasks: the
      listing is the top-level batch. */
  lemma ObjectionBatchListing(rows: seq<Task>, first: nat, user: nat, callType: string,
                              checklistType: string, labels: seq<string>)
    requires TopLevel(rows, user, callType, checklistType) == []
    ensures var n := first + |labels|;
            var top := NewRows(first, user, callType, checklistType, labels + ["Objection"], None);
            var subs := NewRows(n + 1, user, callType, checklistType, ObjectionSubtasks, Some(n));
            TopLevel(rows + top + subs, user, callType, checklistType) == top
  {
    NewRowsAt(first, user, callType, checklistType, labels + ["Objection"], None);
    NewRowsAt(first + |labels| + 1, user, callType, checklistType, ObjectionSubtasks, Some(first + |labels|));
    var n := first + |labels|;
    var top := NewRows(first, user, callType, checklistType, labels + ["Objection"], None);
    var subs := NewRows(n + 1, user, callType, checklistType, ObjectionSubtasks, Some(n));
    var listing := TopLevelOf(user, callType, checklistType);
    assert Filter(top, listing, true) == top by {
      FilterUniform(top, listing, true);
    }
    assert Filter(subs, listing, true) == [] by {
      FilterUniform(subs, listing, false);
    }
    FilterOfThree(rows, top, subs, listing);
  }

  /** ... and when no earlier row hangs under the "Objection" task's id,
      its subtasks are exactly the second batch. */
  lemma ObjectionBatchSubtasks(rows: seq<Task>, first: nat, user: nat, callType: string,
                               checklistType: string, labels: seq<string>)
    requires forall i :: 0 <= i < |rows| ==> !Selects(SubtasksOf(first + |labels|), rows[i])
    ensures var n := first + |labels|;
            var top := NewRows(first, user, callType, checklistType, labels + ["Objection"], None);
            var subs := NewRows(n + 1, user, callType, checklistType, ObjectionSubtasks, Some(n));
            Subtasks(rows + top + subs, n) == subs
  {
    NewRowsAt(first, user, callType, checklistType, labels + ["Objection"], None);
    NewRowsAt(first + |labels| + 1, user, callType, checklistType, ObjectionSubtasks, Some(first + |labels|));
    var n := first + |labels|;
    var top := NewRows(first, user, callType, checklistType, labels + ["Objection"], None);
    var subs := NewRows(n + 1, user, callType, checklistType, ObjectionSubtasks, Some(n));
    assert Filter(rows, SubtasksOf(n), true) == [] by {
      FilterUniform(rows, SubtasksOf(n), false);
    }
    assert Filter(top, SubtasksOf(n), true) == [] by {
      FilterUniform(top, SubtasksOf(n), false);
    }
    assert Filter(subs, SubtasksOf(n), true) == subs by {
      FilterUniform(subs, SubtasksOf(n), true);
    }
    FilterOfThree(rows, top, subs, SubtasksOf(n));
  }

  /** On a first visit to a sales or support start call the listing shows
      the template tasks followed by the added "Objection" task, and that
      task holds exactly the four objection subtasks. */
  lemma PopulateFreshObjection(t: Table, user: nat, callType: string, checklistType: string)
    requires WellFormed(t)
    requires TopLevel(t.rows, user, callType, checklistType) == []
    requires IsObjectionPair(callType, checklistType)
    ensures var labels := DefaultTasks(callType, checklistType);
            var n := t.nextId + |labels|;
            var r := Populated(t, user, callType, checklistType).rows;
            && TopLevel(r, user, callType, checklistType)
               == NewRows(t.nextId, user, callType, checklistType, labels + ["Objection"], None)
            && Subtasks(r, n) == NewRows(n + 1, user, callType, checklistType, ObjectionSubtasks, Some(n))
  {
    var labels := DefaultTasks(callType, checklistType);
    var n := t.nextId + |labels|;
    var r := PopulatedWith(t, user, callType, checklistType, labels, true).rows;
    assert Populated(t, user, callType, checklistType).rows == r;
    assert TopLevel(r, user, callType, checklistType)
           == NewRows(t.nextId, user, callType, checklistType, labels + ["Objection"], None) by {
      PopulateWithObjectionListing(t, user, callType, checklistType, labels);
    }
    assert Subtasks(r, n) == NewRows(n + 1, user, callType, checklistType, ObjectionSubtasks, Some(n)) by {
      NoSubtasksOfUnassigned(t, n);
      PopulateWithObjectionSubtasks(t, user, callType, checklistType, labels);
    }
  }

  /** The listing half of `PopulateFreshObjection`, for any template
      `labels`. */
  lemma PopulateWithObjectionListing(t: Table, user: nat, callType: string, checklistType: string,
                                     labels: seq<string>)
    requires TopLevel(t.rows, user, callType, checklistType) == []
    ensures var r := PopulatedWith(t, user, callType, checklistType, labels, true).rows;
            TopLevel(r, user, callType, checklistType)
            == NewRows(t.nextId, user, callType, checklistType, labels + ["Objection"], None)
  {
    PopulateWithFresh(t, user, callType, checklistType, labels, true);
    ObjectionBatchListing(t.rows, t.nextId, user, callType, checklistType, labels);
  }

  /** The subtask half of `PopulateFreshObjection`, for any template
      `labels`, given that no row hangs under the id the "Objection" task
      will get. */
  lemma PopulateWithObjectionSubtasks(t: Table, user: nat, callType: string, checklistType: string,
                                      labels: seq<string>)
    requires TopLevel(t.rows, user, callType, checklistType) == []
    requires forall i :: 0 <= i < |t.rows| ==> !Selects(SubtasksOf(t.nextId + |labels|), t.rows[i])
    ensures var n := t.nextId + |labels|;
            var r := PopulatedWith(t, user, callType, checklistType, labels, true).rows;
            Subtasks(r, n) == NewRows(n + 1, user, callType, checklistType, ObjectionSubtasks, Some(n))
  {
    PopulateWithFresh(t, user, callType, checklistType, labels, true);
    ObjectionBatchSubtasks(t.rows, t.nextId, user, callType, checklistType, labels);
  }

  /** The sales start-call template has nine labels and is an objection
      pair. */
  lemma SalesStartCall()
    ensures DefaultTasks("sales", "start call") == SalesStart && |SalesStart| == 9
    ensures IsObjectionPair("sales", "start call")
  {
    assert Lower("sales") == "sales";
    assert Lower("start call") == "start call";
  }

  /** A fresh sales start call: the nine template tasks, then a second
      "Objection" task that already has its four subtasks; the template's
      own "Objection" (fifth task) has none. */
  lemma FreshSalesStartCall(user: nat, first: nat)
    ensures var r := Populated(Table([], first), user, "sales", "start call").rows;
            && |r| == 14
            && TopLevel(r, user, "sales", "start call")
               == NewRows(first, user, "sales", "start call", SalesStart + ["Objection"], None)
            && r[4].text == "Objection" && r[9].text == "Objection" && r[9].id == first + 9
            && Subtasks(r, first + 9)
               == NewRows(first + 10, user, "sales", "start call", ObjectionSubtasks, Some(first + 9))
            && Subtasks(r, first + 4) == []
  {
    var t := Table([], first);
    var top := NewRows(first, user, "sales", "start call", SalesStart + ["Objection"], None);
    var subs := NewRows(first + 10, user, "sales", "start call", ObjectionSubtasks, Some(first + 9));
    assert Populated(t, user, "sales", "start call").rows == top + subs by {
      SalesStartCall();
      assert TopLevel([], user, "sales", "start call") == [];
      PopulateFresh(t, user, "sales", "start call");
      assert [] + top + subs == top + subs;
    }
    assert TopLevel(top + subs, user, "sales", "start call") == top
        && Subtasks(top + subs, first + 9) == subs by {
      SalesStartCall();
      ObjectionBatchListing([], first, user, "sales", "start call", SalesStart);
      ObjectionBatchSubtasks([], first, user, "sales", "start call", SalesStart);
      assert [] + top + subs == top + subs;
    }
    SalesBatchShape(user, first);
  }

  /** The shape of the rows of a fresh sales start call. */
  lemma SalesBatchShape(user: nat, first: nat)
    ensures var top := NewRows(first, user, "sales", "start call", SalesStart + ["Objection"], None);
            var subs := NewRows(first + 10, user, "sales", "start call", ObjectionSubtasks, Some(first + 9));
            var r := top + subs;
            && |r| == 14
            && r[4].text == "Objection" && r[9].text == "Objection" && r[9].id == first + 9
            && Subtasks(r, first + 4) == []
  {
    NewRowsAt(first, user, "sales", "start call", SalesStart + ["Objection"], None);
    NewRowsAt(first + 10, user, "sales", "start call", ObjectionSubtasks, Some(first + 9));
    var top := NewRows(first, user, "sales", "start call", SalesStart + ["Objection"], None);
    var subs := NewRows(first + 10, user, "sales", "start call", ObjectionSubtasks, Some(first + 9));
    var r := top + subs;
    assert r[4] == top[4] && r[9] == top[9];
    assert (SalesStart + ["Objection"])[4] == "Objection";
    assert (SalesStart + ["Objection"])[9] == "Objection";
    forall k | 0 <= k < |r| ensures !Selects(SubtasksOf(first + 4), r[k]) {
      if k >= |top| { assert r[k] == subs[k - |top|]; }
    }
    FilterUniform(r, SubtasksOf(first + 4), false);
  }

  // ---------------------------------------------------------------------
  // toggle_task and toggle_subtask

  /** Toggling a task that is not an objection task flips its `done` and
      changes nothing else. */
  lemma ToggleOrdinary(t: Table, user: nat, i: nat)
    requires AscendingIds(t.rows) && i < |t.rows|
    requires t.rows[i].userId == user && !IsObjectionTask(t.rows[i])
    ensures Toggled(t, user, t.rows[i].id)
            == t.(rows := t.rows[i := t.rows[i].(done := !t.rows[i].done)])
  {
    IndexOfRow(t.rows, i);
  }

  /** Toggling such a task twice restores the table. */
  lemma ToggleTwice(t: Table, user: nat, i: nat)
    requires AscendingIds(t.rows) && i < |t.rows|
    requires t.rows[i].userId == user && !IsObjectionTask(t.rows[i])
    ensures Toggled(Toggled(t, user, t.rows[i].id), user, t.rows[i].id) == t
  {
    var x := t.rows[i];
    var once := t.(rows := t.rows[i := x.(done := !x.done)]);
    ToggleOrdinary(t, user, i);
    assert AscendingIds(once.rows) by {
      assert forall k :: 0 <= k < |t.rows| ==> once.rows[k].id == t.rows[k].id;
    }
    ToggleOrdinary(once, user, i);
    assert once.rows[i := x] == t.rows;
  }

  /** The first toggle of an objection task that has no subtasks adds the
      four objection subtasks under it, in order and not done, leaves its
      own `done` and every other row as they were, and a second toggle
      then changes nothing. */
  lemma ToggleObjectionExpands(t: Table, user: nat, i: nat)
    requires AscendingIds(t.rows) && i < |t.rows|
    requires t.rows[i].userId == user && IsObjectionTask(t.rows[i])
    requires Subtasks(t.rows, t.rows[i].id) == []
    ensures var x := t.rows[i];
            var subs := NewRows(t.nextId, user, x.callType, x.checklistType, ObjectionSubtasks, Some(x.id));
            var r := Toggled(t, user, x.id);
            && r.rows == t.rows + subs
            && r.rows[i] == x
            && Subtasks(r.rows, x.id) == subs
            && |subs| == 4
            && Toggled(r, user, x.id) == r
  {
    var x := t.rows[i];
    var subs := NewRows(t.nextId, user, x.callType, x.checklistType, ObjectionSubtasks, Some(x.id));
    IndexOfRow(t.rows, i);
    var r := Toggled(t, user, x.id);
    assert r.rows == t.rows + subs;
    NewRowsAt(t.nextId, user, x.callType, x.checklistType, ObjectionSubtasks, Some(x.id));
    FilterConcat(t.rows, subs, SubtasksOf(x.id), true);
    FilterUniform(subs, SubtasksOf(x.id), true);
    assert Subtasks(r.rows, x.id) == subs;
    var k := IndexOf(r.rows, x.id);
    assert r.rows[i] == x;
    assert k.Some? && k.value <= i;
    assert r.rows[k.value] == t.rows[k.value];
    assert k.value == i;
  }

  /** An objection task that already has subtasks is never flipped:
      toggling it changes nothing. */
  lemma ToggleObjectionWithSubtasks(t: Table, user: nat, i: nat)
    requires AscendingIds(t.rows) && i < |t.rows|
    requires IsObjectionTask(t.rows[i]) && Subtasks(t.rows, t.rows[i].id) != []
    ensures Toggled(t, user, t.rows[i].id) == t
  {
    IndexOfRow(t.rows, i);
  }

  /** `toggle_subtask` by the owner flips that row's `done` only. */
  lemma SubtaskToggleFlips(t: Table, user: nat, i: nat)
    requires AscendingIds(t.rows) && i < |t.rows| && t.rows[i].userId == user
    ensures SubtaskToggled(t, user, t.rows[i].id)
            == t.(rows := t.rows[i := t.rows[i].(done := !t.rows[i].done)])
  {
    IndexOfRow(t.rows, i);
  }

  // ---------------------------------------------------------------------
  // add_task

  /** Deleting the task `add_task` has just created gives back the rows as
      they were; only the id counter has moved on. */
  lemma AddThenDelete(t: Table, user: nat, callType: string, checklistType: string, text: string)
    requires WellFormed(t) && !AllSpace(text)
    ensures Deleted(WithTaskAdded(t, user, callType, checklistType, text), user, t.nextId).rows == t.rows
  {
    var n := t.nextId;
    var added := WithTaskAdded(t, user, callType, checklistType, text);
    var x := Task(n, user, callType, checklistType, Strip(text), false, None);
    assert added.rows == t.rows + [x];
    assert Deleted(added, user, n).rows == Delete(added.rows, Family(n)) by {
      WithTaskAddedWellFormed(t, user, callType, checklistType, text);
      IndexOfRow(added.rows, |t.rows|);
    }
    DeleteNewest(t, x);
  }

  /** Deleting the family of a top-level row just appended under the next
      id removes that row and nothing else. */
  lemma DeleteNewest(t: Table, x: Task)
    requires WellFormed(t) && x.id == t.nextId && x.parentId.None?
    ensures Delete(t.rows + [x], Family(t.nextId)) == t.rows
  {
    var n := t.nextId;
    assert Filter(t.rows + [x], Family(n), false) == t.rows && Filter(t.rows + [x], Family(n), true) == [x] by {
      NoneOfFamilyUnassigned(t);
      FilterUniform(t.rows, Family(n), false);
      FilterUniform([x], Family(n), true);
      FilterConcat(t.rows, [x], Family(n), false);
      FilterConcat(t.rows, [x], Family(n), true);
    }
    assert IdsOf([x]) == {n} by { IdsOfOne(x); }
    assert Detach(t.rows, {n}) == t.rows by {
      NoneOfFamilyUnassigned(t);
      DetachNothing(t.rows, {n});
    }
  }

  /** The ids of a single row. */
  lemma IdsOfOne(x: Task)
    ensures IdsOf([x]) == {x.id}
  {
    assert x in [x];
  }

  /** Clearing the parents in `gone` changes nothing when no row hangs
      under one of them. */
  lemma DetachNothing(rows: seq<Task>, gone: set<nat>)
    requires forall i :: 0 <= i < |rows| ==> rows[i].parentId.None? || rows[i].parentId.value !in gone
    ensures Detach(rows, gone) == rows
  {
  }

  /** No row of a well-formed table is, or hangs under, the next id. */
  lemma NoneOfFamilyUnassigned(t: Table)
    requires WellFormed(t)
    ensures forall i :: 0 <= i < |t.rows| ==> !Selects(Family(t.nextId), t.rows[i])
  {
    forall i | 0 <= i < |t.rows| ensures !Selects(Family(t.nextId), t.rows[i]) {
      assert t.rows[i] in t.rows;
    }
  }

  // ---------------------------------------------------------------------
  // edit_task

  /** A posted text that does not strip to "" replaces the owner's task
      text with the stripped text and changes nothing else. */
  lemma EditAccepted(t: Table, user: nat, i: nat, text: string)
    requires AscendingIds(t.rows) && i < |t.rows| && t.rows[i].userId == user
    requires !AllSpace(text)
    ensures Edited(t, user, t.rows[i].id, Some(text))
            == t.(rows := t.rows[i := t.rows[i].(text := Strip(text))])
  {
    IndexOfRow(t.rows, i);
    StripEmptyIff(text);
  }

  // ---------------------------------------------------------------------
  // delete_task

  /** The rows a family deletion removes are the task itself and its
      direct subtasks: one more than the number of subtasks. */
  lemma {:induction false} FamilyCount(rows: seq<Task>, id: nat)
    requires AscendingIds(rows)
    requires forall x :: x in rows && x.id == id ==> x.parentId != Some(id)
    ensures |Filter(rows, Family(id), true)|
            == |Subtasks(rows, id)| + (if exists k :: 0 <= k < |rows| && rows[k].id == id then 1 else 0)
    decreases |rows|
  {
    if rows != [] {
      var front := rows[..|rows| - 1];
      var last := rows[|rows| - 1];
      assert forall x :: x in front ==> x in rows;
      assert AscendingIds(front);
      FamilyCount(front, id);
      if last.id == id {
        assert forall k :: 0 <= k < |front| ==> front[k].id < id;
      }
    }
  }

  /** Splitting the rows by a query loses none and duplicates none. */
  lemma {:induction false} FilterSplit(rows: seq<Task>, sel: Selector)
    ensures |Filter(rows, sel, true)| + |Filter(rows, sel, false)| == |rows|
    decreases |rows|
  {
    if rows != [] {
      FilterSplit(rows[..|rows| - 1], sel);
    }
  }

  /** `delete_task` by the owner of a task with N subtasks removes N + 1
      rows. */
  lemma DeleteFamilyCount(t: Table, user: nat, i: nat)
    requires WellFormed(t) && i < |t.rows| && t.rows[i].userId == user
    ensures var id := t.rows[i].id;
            |Deleted(t, user, id).rows| == |t.rows| - 1 - |Subtasks(t.rows, id)|
  {
    var id := t.rows[i].id;
    IndexOfRow(t.rows, i);
    FilterSplit(t.rows, Family(id));
    forall x | x in t.rows && x.id == id ensures x.parentId != Some(id) {
    }
    FamilyCount(t.rows, id);
  }

  /** Deleting rows does not change the ids of the rows left behind. */
  lemma DetachKeepsIds(rows: seq<Task>, gone: set<nat>)
    ensures IdsOf(Detach(rows, gone)) == IdsOf(rows)
  {
    var r := Detach(rows, gone);
    forall n | n in IdsOf(r) ensures n in IdsOf(rows) {
      var x :| x in r && x.id == n;
      var k :| 0 <= k < |r| && r[k] == x;
      assert rows[k] in rows;
    }
    forall n | n in IdsOf(rows) ensures n in IdsOf(r) {
      var x :| x in rows && x.id == n;
      var k :| 0 <= k < |rows| && rows[k] == x;
      assert r[k] in r;
    }
  }

  /** After `delete_task` by the owner, the ids left are exactly the old
      ids other than the task's own and its direct subtasks'. */
  lemma DeleteFamilyIds(t: Table, user: nat, i: nat)
    requires WellFormed(t) && i < |t.rows| && t.rows[i].userId == user
    ensures var id := t.rows[i].id;
            var r := Deleted(t, user, id);
            forall n :: n in IdsOf(r.rows) <==>
              n in IdsOf(t.rows) && n != id && n !in IdsOf(Subtasks(t.rows, id))
  {
    var id := t.rows[i].id;
    IndexOfRow(t.rows, i);
    var kept := Filter(t.rows, Family(id), false);
    var subs := Subtasks(t.rows, id);
    DetachKeepsIds(kept, IdsOf(Filter(t.rows, Family(id), true)));
    FilterMembers(t.rows, Family(id), false);
    FilterMembers(t.rows, SubtasksOf(id), true);
    forall n ensures n in IdsOf(kept) <==> n in IdsOf(t.rows) && n != id && n !in IdsOf(subs) {
      if n in IdsOf(kept) {
        var y :| y in kept && y.id == n;
        forall s | s in subs ensures s.id != n {
          SameIdSameRow(t.rows, s, y);
        }
      }
      if n in IdsOf(t.rows) && n != id && n !in IdsOf(subs) {
        var y :| y in t.rows && y.id == n;
        assert y.parentId == Some(id) ==> y in subs;
        assert y in kept;
      }
    }
  }

  /** In the usual case, where no remaining row hangs under one of the
      deleted subtasks, `delete_task` simply drops the task and its
      subtasks and leaves every other row as it was, in order. */
  lemma DeleteWithoutGrandchildren(t: Table, user: nat, i: nat)
    requires AscendingIds(t.rows) && i < |t.rows| && t.rows[i].userId == user
    requires forall x, s :: x in t.rows && s in Subtasks(t.rows, t.rows[i].id) && x.parentId.Some?
               ==> x.parentId.value != s.id
    ensures Deleted(t, user, t.rows[i].id).rows == Filter(t.rows, Family(t.rows[i].id), false)
  {
    var id := t.rows[i].id;
    IndexOfRow(t.rows, i);
    var kept := Filter(t.rows, Family(id), false);
    var family := Filter(t.rows, Family(id), true);
    FilterMembers(t.rows, Family(id), false);
    FilterMembers(t.rows, Family(id), true);
    FilterMembers(t.rows, SubtasksOf(id), true);
    forall k | 0 <= k < |kept| && kept[k].parentId.Some?
      ensures kept[k].parentId.value !in IdsOf(family)
    {
      var x := kept[k];
      assert x in kept;
      forall y | y in family ensures y.id != x.parentId.value {
        assert y.id != id ==> y in Subtasks(t.rows, id);
      }
    }
    assert Detach(kept, IdsOf(family)) == kept;
  }

  /** Two filters over the same rows may be applied in either order. */
  lemma {:induction false} FilterCommute(rows: seq<Task>, a: Selector, ka: bool, b: Selector, kb: bool)
    ensures Filter(Filter(rows, a, ka), b, kb) == Filter(Filter(rows, b, kb), a, ka)
    decreases |rows|
  {
    if rows != [] {
      var front := rows[..|rows| - 1];
      var last := rows[|rows| - 1];
      FilterCommute(front, a, ka, b, kb);
      var fa := Filter(front, a, ka) + (if Selects(a, last) == ka then [last] else []);
      var fb := Filter(front, b, kb) + (if Selects(b, last) == kb then [last] else []);
      FilterConcat(Filter(front, a, ka), if Selects(a, last) == ka then [last] else [], b, kb);
      FilterConcat(Filter(front, b, kb), if Selects(b, last) == kb then [last] else [], a, ka);
      assert [last][..0] == [];
    }
  }

  /** One might expect deleting a top-level task to shorten the
      checklist's listing by exactly one. That holds when none of its
      subtasks has subtasks of its own: the listing afterwards is the old
      listing, in order, without that task. */
  lemma DeleteTopLevelListing(t: Table, user: nat, i: nat)
    requires AscendingIds(t.rows) && i < |t.rows| && t.rows[i].userId == user
    requires t.rows[i].parentId.None?
    requires forall x, s :: x in t.rows && s in Subtasks(t.rows, t.rows[i].id) && x.parentId.Some?
               ==> x.parentId.value != s.id
    ensures var x := t.rows[i];
            var before := TopLevel(t.rows, user, x.callType, x.checklistType);
            var after := TopLevel(Deleted(t, user, x.id).rows, user, x.callType, x.checklistType);
            && x in before && x !in after
            && after == Filter(before, Family(x.id), false)
            && |after| == |before| - 1
  {
    var x := t.rows[i];
    var top := TopLevelOf(user, x.callType, x.checklistType);
    var before := TopLevel(t.rows, user, x.callType, x.checklistType);
    var after := TopLevel(Deleted(t, user, x.id).rows, user, x.callType, x.checklistType);
    assert after == Filter(before, Family(x.id), false) by {
      DeleteWithoutGrandchildren(t, user, i);
      FilterCommute(t.rows, Family(x.id), false, top, true);
    }
    TopLevelWithout(t.rows, x, user);
  }

  /** A top-level row is listed in its checklist, and leaving out its
      family removes exactly that row from the listing. */
  lemma TopLevelWithout(rows: seq<Task>, x: Task, user: nat)
    requires AscendingIds(rows) && x in rows && x.userId == user && x.parentId.None?
    ensures var before := TopLevel(rows, user, x.callType, x.checklistType);
            && x in before && x !in Filter(before, Family(x.id), false)
            && |Filter(before, Family(x.id), false)| == |before| - 1
  {
    var top := TopLevelOf(user, x.callType, x.checklistType);
    var before := TopLevel(rows, user, x.callType, x.checklistType);
    FilterMembers(rows, top, true);
    FilterMembers(before, Family(x.id), false);
    FilterAscending(rows, top, true);
    DropOneTopLevel(before, x);
  }

  /** Among top-level rows with distinct ids, a task's family is the task
      alone, so leaving it out removes exactly one row. */
  lemma DropOneTopLevel(rows: seq<Task>, x: Task)
    requires AscendingIds(rows) && x in rows
    requires forall y :: y in rows ==> y.parentId.None?
    ensures |Filter(rows, Family(x.id), false)| == |rows| - 1
  {
    forall k | 0 <= k < |rows| ensures !Selects(SubtasksOf(x.id), rows[k]) {
      assert rows[k] in rows;
    }
    FilterUniform(rows, SubtasksOf(x.id), false);
    var k :| 0 <= k < |rows| && rows[k] == x;
    FamilyCount(rows, x.id);
    FilterSplit(rows, Family(x.id));
  }

  /** A sales start-call checklist holding one objection task, a subtask
      under it that was edited to read "Objection" and toggled with
      `toggle_task`, and the subtask that toggle added under it. */
  const PromotionExample := Table([Task(1, 7, "sales", "start call", "Objection", false, None),
                                   Task(2, 7, "sales", "start call", "Objection", false, Some(1)),
                                   Task(3, 7, "sales", "start call", "Listen & Acknowledge", false, Some(2))], 4)

  /** The example table satisfies the table invariant. */
  lemma PromotionExampleWellFormed()
    ensures WellFormed(PromotionExample)
  {
    var rows := PromotionExample.rows;
    assert HasParent(rows, rows[1]) by { assert rows[0] in rows; }
    assert HasParent(rows, rows[2]) by { assert rows[1] in rows; }
  }

  /** Task 1 of the example and its direct subtask are its family. */
  lemma PromotionExampleFamily()
    ensures var rows := PromotionExample.rows;
            && Filter(rows, Family(1), false) == [rows[2]]
            && Filter(rows, Family(1), true) == rows[..2]
  {
    var rows := PromotionExample.rows;
    assert rows[..2] == rows[..1] + [rows[1]];
    assert rows[..1] == [] + [rows[0]];
  }

  /** Deleting task 1 of the example keeps row 3, whose parent (row 2)
      went with it, and clears its parent id. */
  lemma PromotionExampleDeleted()
    ensures Deleted(PromotionExample, 7, 1).rows == [PromotionExample.rows[2].(parentId := None)]
  {
    var rows := PromotionExample.rows;
    assert AccessTo(rows, 7, 1) == Granted by {
      assert IndexOf(rows, 1) == Some(0);
    }
    assert Delete(rows, Family(1)) == Detach([rows[2]], {1, 2}) by {
      PromotionExampleFamily();
      assert IdsOf(rows[..2]) == {1, 2} by { assert rows[0] in rows[..2] && rows[1] in rows[..2]; }
    }
  }

  /** `delete_task` removes the task and its direct subtasks only. A
      subtask's subtask survives with its parent cleared, so it shows up
      as a top-level task: deleting the one listed task of the example
      leaves the listing as long as before. */
  lemma DeletePromotesGrandchildren()
    ensures var r := Deleted(PromotionExample, 7, 1).rows;
            && r == [Task(3, 7, "sales", "start call", "Listen & Acknowledge", false, None)]
            && |TopLevel(r, 7, "sales", "start call")| == |TopLevel(PromotionExample.rows, 7, "sales", "start call")| == 1
  {
    var rows := PromotionExample.rows;
    var a, b, c := rows[0], rows[1], rows[2];
    PromotionExampleDeleted();
    var top := TopLevelOf(7, "sales", "start call");
    assert rows == [a, b] + [c];
    assert [a, b] == [a] + [b] && [a] == [] + [a];
    assert Filter(rows, top, true) == [a];
    assert [c.(parentId := None)] == [] + [c.(parentId := None)];
  }

  // ---------------------------------------------------------------------
  // new_call

  /** In a well-formed table, no row outside a user's checklist hangs under
      a row inside it, so deleting the whole checklist detaches nothing. */
  lemma DeleteChecklistDetachesNothing(t: Table, user: nat, callType: string, checklistType: string)
    requires WellFormed(t)
    ensures var sel := OfChecklist(user, callType, checklistType);
            Delete(t.rows, sel) == Filter(t.rows, sel, false)
  {
    var sel := OfChecklist(user, callType, checklistType);
    var kept := Filter(t.rows, sel, false);
    var removed := Filter(t.rows, sel, true);
    FilterMembers(t.rows, sel, false);
    FilterMembers(t.rows, sel, true);
    forall k | 0 <= k < |kept| && kept[k].parentId.Some?
      ensures kept[k].parentId.value !in IdsOf(removed)
    {
      var x := kept[k];
      assert x in kept && x in t.rows && HasParent(t.rows, x);
      var p :| p in t.rows && p.id == x.parentId.value && SameChecklist(p, x);
      forall y | y in removed ensures y.id != p.id {
        SameIdSameRow(t.rows, y, p);
      }
    }
    assert Detach(kept, IdsOf(removed)) == kept;
  }

  /** Every row `populate_default_tasks` adds belongs to that checklist. */
  lemma PopulatedAddsToChecklist(t: Table, user: nat, callType: string, checklistType: string)
    ensures var r := Populated(t, user, callType, checklistType);
            forall k :: |t.rows| <= k < |r.rows| ==>
              Selects(OfChecklist(user, callType, checklistType), r.rows[k])
  {
    var labels := DefaultTasks(callType, checklistType);
    var seeded := Seeded(t, user, callType, checklistType, labels);
    NewRowsAt(t.nextId, user, callType, checklistType, labels, None);
    NewRowsAt(seeded.nextId, user, callType, checklistType, ["Objection"], None);
    NewRowsAt(seeded.nextId + 1, user, callType, checklistType, ObjectionSubtasks, Some(seeded.nextId));
  }

  /** Inserting after existing rows adds what inserting into an empty
      table with the same next id adds. */
  lemma InsertAppends(rows: seq<Task>, next: nat, user: nat, callType: string, checklistType: string,
                      labels: seq<string>, parent: Option<nat>)
    ensures var e := Insert(Table([], next), user, callType, checklistType, labels, parent);
            Insert(Table(rows, next), user, callType, checklistType, labels, parent) == Table(rows + e.rows, e.nextId)
  {
    assert [] + NewRows(next, user, callType, checklistType, labels, parent)
           == NewRows(next, user, callType, checklistType, labels, parent);
  }

  /** What `populate_default_tasks` adds to a table without a top-level task
      of the checklist does not depend on the rows already there: it is what
      it would add to an empty table with the same next id. */
  lemma PopulateIgnoresOtherRows(t: Table, user: nat, callType: string, checklistType: string)
    requires TopLevel(t.rows, user, callType, checklistType) == []
    ensures Populated(t, user, callType, checklistType).rows
            == t.rows + Populated(Table([], t.nextId), user, callType, checklistType).rows
  {
    var labels := DefaultTasks(callType, checklistType);
    assert TopLevel([], user, callType, checklistType) == [];
    InsertAppends(t.rows, t.nextId, user, callType, checklistType, labels, None);
    var s1 := Seeded(t, user, callType, checklistType, labels);
    var s2 := Seeded(Table([], t.nextId), user, callType, checklistType, labels);
    assert s1 == Table(t.rows + s2.rows, s2.nextId);
    if IsObjectionPair(callType, checklistType) {
      var w := Insert(s2, user, callType, checklistType, ["Objection"], None);
      InsertAppends(s2.rows, s2.nextId, user, callType, checklistType, ["Objection"], None);
      assert Insert(s2, user, callType, checklistType, ["Objection"], None)
             == Insert(Table(s2.rows, s2.nextId), user, callType, checklistType, ["Objection"], None);
      assert Insert(s1, user, callType, checklistType, ["Objection"], None)
             == Table(t.rows + w.rows, w.nextId);
      InsertAppends(w.rows, w.nextId, user, callType, checklistType, ObjectionSubtasks, Some(s2.nextId));
    }
  }

  /** `new_call` resets the user's checklist to exactly what a first visit
      would create, with the next ids; rows of other users and of other
      checklists are untouched. */
  lemma NewCallResets(t: Table, user: nat, callType: string, checklistType: string)
    requires WellFormed(t)
    ensures var sel := OfChecklist(user, callType, checklistType);
            var r := ResetForNewCall(t, user, callType, checklistType);
            && Filter(r.rows, sel, true) == Populated(Table([], t.nextId), user, callType, checklistType).rows
            && Filter(r.rows, sel, false) == Filter(t.rows, sel, false)
  {
    var sel := OfChecklist(user, callType, checklistType);
    DeleteChecklistDetachesNothing(t, user, callType, checklistType);
    var rest := Filter(t.rows, sel, false);
    FilterMembers(t.rows, sel, false);
    assert forall k :: 0 <= k < |rest| ==> rest[k] in rest;
    FilterUniform(rest, sel, false);
    FilterUniform(rest, TopLevelOf(user, callType, checklistType), false);
    var cleared := Table(rest, t.nextId);
    PopulateIgnoresOtherRows(cleared, user, callType, checklistType);
    var added := Populated(Table([], t.nextId), user, callType, checklistType).rows;
    PopulatedAddsToChecklist(Table([], t.nextId), user, callType, checklistType);
    FilterUniform(added, sel, true);
    FilterConcat(rest, added, sel, true);
    FilterConcat(rest, added, sel, false);
  }
}
