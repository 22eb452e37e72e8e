/** The data of the desktop "Finish Your Checklist" tool (app.py) and the
    pure transformations its `ChecklistApp` methods apply to it. The store
    is the JSON document: checklist name -> {daily_refresh, last_refresh,
    tasks: [{text, done}]}. */
module DesktopSpec {

  /** One entry of a checklist's `tasks` list. */
  datatype Task = Task(text: string, done: bool)

  /** One checklist record. A record read without a `daily_refresh` key
      behaves as `false`, one without `last_refresh` as "". */
  datatype Checklist = Checklist(dailyRefresh: bool, lastRefresh: string, tasks: seq<Task>)

  /** `self.checklists`: checklist name -> record. */
  type Store = map<string, Checklist>

  /** The record `create_checklist` stores under a new name. */
  function NewChecklist(today: string): (c: Checklist)
    ensures !c.dailyRefresh && c.tasks == [] && c.lastRefresh == today
  {
    Checklist(false, today, [])
  }

  /** `tasks` after `task['done'] = v` for every task: same texts, same
      order, same count, every `done` equal to `v`. */
  function WithAllDone(ts: seq<Task>, v: bool): (r: seq<Task>)
    ensures |r| == |ts|
    ensures forall i :: 0 <= i < |ts| ==> r[i].text == ts[i].text && r[i].done == v
  {
    if ts == [] then [] else [Task(ts[0].text, v)] + WithAllDone(ts[1..], v)
  }

  /** Setting every `done` to `v` a second time changes nothing more. */
  lemma WithAllDoneIdempotent(ts: seq<Task>, v: bool)
    ensures WithAllDone(WithAllDone(ts, v), v) == WithAllDone(ts, v)
  {
    var once := WithAllDone(ts, v);
    var twice := WithAllDone(once, v);
    assert forall i :: 0 <= i < |ts| ==> twice[i] == once[i];
  }

  /** `tasks` after `toggle_task(i)`: task `i` has its `done` flipped and
      keeps its text; every other task and the length are unchanged. */
  function Flip(ts: seq<Task>, i: nat): (r: seq<Task>)
    requires i < |ts|
    ensures |r| == |ts|
    ensures r[i].text == ts[i].text && r[i].done == !ts[i].done
    ensures forall j :: 0 <= j < |ts| && j != i ==> r[j] == ts[j]
  {
    ts[i := Task(ts[i].text, !ts[i].done)]
  }

  /** Toggling the same task twice restores the list. */
  lemma FlipTwice(ts: seq<Task>, i: nat)
    requires i < |ts|
    ensures Flip(Flip(ts, i), i) == ts
  {
    var twice := Flip(Flip(ts, i), i);
    assert forall j :: 0 <= j < |ts| ==> twice[j] == ts[j];
  }

  /** `tasks` after `edit_task(i)` accepted `text`: task `i` holds `text`
      verbatim and keeps its `done`; everything else is unchanged. */
  function SetText(ts: seq<Task>, i: nat, text: string): (r: seq<Task>)
    requires i < |ts|
    ensures |r| == |ts|
    ensures r[i].text == text && r[i].done == ts[i].done
    ensures forall j :: 0 <= j < |ts| && j != i ==> r[j] == ts[j]
  {
    ts[i := Task(text, ts[i].done)]
  }

  /** Editing a task back to its old text restores the list. */
  lemma SetTextBack(ts: seq<Task>, i: nat, text: string)
    requires i < |ts|
    ensures SetText(SetText(ts, i, text), i, ts[i].text) == ts
  {
    var back := SetText(SetText(ts, i, text), i, ts[i].text);
    assert forall j :: 0 <= j < |ts| ==> back[j] == ts[j];
  }

  /** `tasks` after `del tasks[i]`: one shorter; the tasks before `i` stay
      where they were and the tasks after it move down by one, so their
      relative order is kept. */
  function RemoveAt(ts: seq<Task>, i: nat): (r: seq<Task>)
    requires i < |ts|
    ensures |r| == |ts| - 1
    ensures forall j :: 0 <= j < i ==> r[j] == ts[j]
    ensures forall j :: i <= j < |r| ==> r[j] == ts[j + 1]
  {
    ts[..i] + ts[i + 1..]
  }

  /** The store after `checklists[to] = checklists.pop(from)`: `from` is
      gone, `to` holds the identical record, every other entry is
      untouched and the number of checklists is the same. */
  function Renamed(m: Store, from: string, to: string): (r: Store)
    requires from in m && to !in m
    ensures r.Keys == m.Keys - {from} + {to}
    ensures r[to] == m[from]
    ensures forall k :: k in m && k != from ==> k in r && r[k] == m[k]
    ensures |r| == |m|
  {
    var rest := m - {from};
    assert rest.Keys == m.Keys - {from};
    assert |rest.Keys| == |m.Keys| - 1;
    rest[to := m[from]]
  }

  /** Deleting the task that `add_task` just appended restores the list. */
  lemma RemoveAppended(ts: seq<Task>, x: Task)
    ensures RemoveAt(ts + [x], |ts|) == ts
  {
    assert (ts + [x])[..|ts|] == ts;
  }

  /** Deleting a checklist that was just created restores the store. */
  lemma CreateThenDelete(m: Store, name: string, today: string)
    requires name !in m
    ensures m[name := NewChecklist(today)] - {name} == m
  {
    var r := m[name := NewChecklist(today)] - {name};
    assert r.Keys == m.Keys;
  }

  /** Renaming a checklist back to its old name restores the store. */
  lemma RenameBack(m: Store, from: string, to: string)
    requires from in m && to !in m
    ensures Renamed(Renamed(m, from, to), to, from) == m
  {
    var back := Renamed(Renamed(m, from, to), to, from);
    assert back.Keys == m.Keys;
    assert forall k :: k in m ==> back[k] == m[k];
  }

  /** The daily-refresh test of `load_data`: the flag is set and the last
      refresh was not `today`. */
  predicate IsDue(c: Checklist, today: string) {
    c.dailyRefresh && c.lastRefresh != today
  }

  /** One checklist after the load-time daily refresh. */
  function RefreshedForToday(c: Checklist, today: string): Checklist {
    if IsDue(c, today) then Checklist(c.dailyRefresh, today, WithAllDone(c.tasks, false)) else c
  }

  /** The store `load_data` returns for the stored document `m` on `today`. */
  function DailyRefresh(m: Store, today: string): Store {
    map k | k in m :: RefreshedForToday(m[k], today)
  }

  /** What the load-time refresh does: the same checklist names; each due
      checklist keeps its flag and its task texts and count, has every task
      not done and `last_refresh == today`; every other checklist is
      returned as stored. */
  lemma DailyRefreshEffect(m: Store, today: string, name: string)
    requires name in m
    ensures DailyRefresh(m, today).Keys == m.Keys
    ensures IsDue(m[name], today) ==>
      var c, c' := m[name], DailyRefresh(m, today)[name];
      && c'.dailyRefresh && c'.lastRefresh == today
      && |c'.tasks| == |c.tasks|
      && forall i :: 0 <= i < |c.tasks| ==> c'.tasks[i] == Task(c.tasks[i].text, false)
    ensures !IsDue(m[name], today) ==> DailyRefresh(m, today)[name] == m[name]
  {
  }

  /** Loading twice on the same day is the same as loading once. */
  lemma DailyRefreshIdempotent(m: Store, today: string)
    ensures DailyRefresh(DailyRefresh(m, today), today) == DailyRefresh(m, today)
  {
    var once := DailyRefresh(m, today);
    var twice := DailyRefresh(once, today);
    forall k | k in once ensures twice[k] == once[k] {
      assert !IsDue(once[k], today);
    }
  }
}
