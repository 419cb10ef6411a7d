/** The to-do page (src/pages/TodoPage.tsx): an ordered list of tasks held in
    page state, the handlers that replace it, and the two values derived from
    it at render time (the filtered list and the category list). */
module Todo {
  import opened Collections
  import opened Text

  datatype Task = Task(id: int, title: string, completed: bool, dueDate: string, priority: string, category: string)

  function IdOf(t: Task): int { t.id }

  /** The invariant the page is meant to keep but does not enforce: no two tasks share an id. */
  ghost predicate UniqueIds(ts: seq<Task>) {
    KeysDistinct(ts, IdOf)
  }

  predicate HasId(ts: seq<Task>, id: int) {
    exists i :: 0 <= i < |ts| && ts[i].id == id
  }

  /** The list after `toggleTaskCompletion(id)`: same length and order, `completed`
      flipped on exactly the tasks carrying `id`, every other field untouched. */
  function Toggled(ts: seq<Task>, id: int): (r: seq<Task>)
    ensures |r| == |ts|
    ensures forall i :: 0 <= i < |ts| ==> r[i] == ts[i].(completed := r[i].completed)
    ensures forall i :: 0 <= i < |ts| ==> (r[i].completed != ts[i].completed <==> ts[i].id == id)
  {
    seq(|ts|, i requires 0 <= i < |ts| => if ts[i].id == id then ts[i].(completed := !ts[i].completed) else ts[i])
  }

  /** Toggling the same id twice gives back the original list. */
  lemma ToggledTwice(ts: seq<Task>, id: int)
    ensures Toggled(Toggled(ts, id), id) == ts
  {
    var once := Toggled(ts, id);
    var twice := Toggled(once, id);
    forall i | 0 <= i < |ts| ensures twice[i] == ts[i] {
      assert once[i].id == ts[i].id;
    }
  }

  /** Toggling an id no task carries changes nothing. */
  lemma ToggledUnknown(ts: seq<Task>, id: int)
    requires !HasId(ts, id)
    ensures Toggled(ts, id) == ts
  {
    var r := Toggled(ts, id);
    forall i | 0 <= i < |ts| ensures r[i] == ts[i] {
      assert ts[i].id != id;
    }
  }

  function IdIsNot(id: int): Task -> bool {
    (t: Task) => t.id != id
  }

  /** The list after `deleteTask(id)`: the tasks not carrying `id`, in their original order. */
  function WithoutTask(ts: seq<Task>, id: int): (r: seq<Task>)
    ensures Subsequence(r, ts)
    ensures forall t :: t in r <==> t in ts && t.id != id
    ensures forall t :: multiset(r)[t] == if t.id != id then multiset(ts)[t] else 0
    ensures !HasId(r, id)
  {
    var r := Filter(ts, IdIsNot(id));
    FilterMultiplicity(ts, IdIsNot(id));
    assert forall i :: 0 <= i < |r| ==> r[i] in r;
    r
  }

  /** Deleting an id no task carries changes nothing; deleting one that is present shortens the list. */
  lemma WithoutTaskAbsent(ts: seq<Task>, id: int)
    ensures WithoutTask(ts, id) == ts <==> !HasId(ts, id)
    ensures HasId(ts, id) ==> |WithoutTask(ts, id)| < |ts|
  {
    FilterKeepsAll(ts, IdIsNot(id));
  }

  /** The list after `saveEditedTask` with `edited` in the editor: each task carrying
      `edited`'s id becomes `edited`, every other task stays, length and order are kept. */
  function Replaced(ts: seq<Task>, edited: Task): (r: seq<Task>)
    ensures |r| == |ts|
    ensures forall i :: 0 <= i < |ts| && ts[i].id == edited.id ==> r[i] == edited
    ensures forall i :: 0 <= i < |ts| && ts[i].id != edited.id ==> r[i] == ts[i]
  {
    seq(|ts|, i requires 0 <= i < |ts| => if ts[i].id == edited.id then edited else ts[i])
  }

  /** Saving the same edit twice is the same as saving it once, and an edit whose id
      is absent changes nothing. */
  lemma ReplacedIdempotent(ts: seq<Task>, edited: Task)
    ensures Replaced(Replaced(ts, edited), edited) == Replaced(ts, edited)
    ensures !HasId(ts, edited.id) ==> Replaced(ts, edited) == ts
  {
    var once := Replaced(ts, edited);
    assert forall i :: 0 <= i < |ts| ==> once[i].id == ts[i].id;
    if !HasId(ts, edited.id) {
      forall i | 0 <= i < |ts| ensures once[i] == ts[i] {
        assert ts[i].id != edited.id;
      }
    }
  }

  /** Toggling, deleting and saving an edit never make two tasks share an id,
      and neither does adding a task whose id is fresh. */
  lemma {:induction false} UniqueIdsPreserved(ts: seq<Task>, id: int, edited: Task, added: Task)
    requires UniqueIds(ts)
    ensures UniqueIds(Toggled(ts, id))
    ensures UniqueIds(WithoutTask(ts, id))
    ensures UniqueIds(Replaced(ts, edited))
    ensures !HasId(ts, added.id) ==> UniqueIds(ts + [added])
  {
    var toggled, replaced := Toggled(ts, id), Replaced(ts, edited);
    assert forall i :: 0 <= i < |ts| ==> IdOf(toggled[i]) == IdOf(ts[i]) && IdOf(replaced[i]) == IdOf(ts[i]);
    SubsequenceKeysDistinct(WithoutTask(ts, id), ts, IdOf);
    if !HasId(ts, added.id) {
      var grown := ts + [added];
      forall i, j | 0 <= i < j < |grown| ensures IdOf(grown[i]) != IdOf(grown[j]) {
        if j < |ts| {
          assert grown[i] == ts[i] && grown[j] == ts[j];
        } else {
          assert grown[i] == ts[i];
        }
      }
    }
  }

  /** The status buttons: 'completed' keeps completed tasks, 'active' keeps the
      others, any other value keeps every task. */
  predicate MatchesStatus(t: Task, filter: string) {
    if filter == "completed" then t.completed
    else if filter == "active" then !t.completed
    else true
  }

  /** The category buttons: 'all' keeps every task, any other value keeps the tasks of that category. */
  predicate MatchesCategory(t: Task, categoryFilter: string) {
    categoryFilter == "all" || t.category == categoryFilter
  }

  function StatusTest(filter: string): Task -> bool {
    (t: Task) => MatchesStatus(t, filter)
  }

  function CategoryTest(categoryFilter: string): Task -> bool {
    (t: Task) => MatchesCategory(t, categoryFilter)
  }

  /** `filteredTasks`: the status filter followed by the category filter. A task is
      shown exactly when it passes both. */
  function FilterTasks(ts: seq<Task>, filter: string, categoryFilter: string): (r: seq<Task>)
    ensures forall t :: t in r <==> t in ts && MatchesStatus(t, filter) && MatchesCategory(t, categoryFilter)
    ensures forall t :: multiset(r)[t] == if MatchesStatus(t, filter) && MatchesCategory(t, categoryFilter) then multiset(ts)[t] else 0
  {
    FilterMultiplicity(ts, StatusTest(filter));
    FilterMultiplicity(Filter(ts, StatusTest(filter)), CategoryTest(categoryFilter));
    Filter(Filter(ts, StatusTest(filter)), CategoryTest(categoryFilter))
  }

  /** The shown tasks keep the order of the list; with neither filter restricting
      anything ('all' / 'all') every task is shown. */
  lemma FilterTasksOrder(ts: seq<Task>, filter: string, categoryFilter: string)
    ensures Subsequence(FilterTasks(ts, filter, categoryFilter), ts)
    ensures filter != "completed" && filter != "active" && categoryFilter == "all" ==> FilterTasks(ts, filter, categoryFilter) == ts
  {
    var p, q := StatusTest(filter), CategoryTest(categoryFilter);
    FilterFilter(ts, p, q);
    if filter != "completed" && filter != "active" && categoryFilter == "all" {
      FilterKeepsAll(ts, p);
      FilterKeepsAll(Filter(ts, p), q);
    }
  }

  function CategoryList(ts: seq<Task>): (r: seq<string>)
    ensures |r| == |ts|
    ensures forall i :: 0 <= i < |ts| ==> r[i] == ts[i].category
  {
    seq(|ts|, i requires 0 <= i < |ts| => ts[i].category)
  }

  /** `categories`: every category that some task carries, each once, ordered by
      the first task that carries it. */
  function CategoriesOf(ts: seq<Task>): (r: seq<string>)
    ensures NoDuplicates(r)
    ensures forall c :: c in r <==> c in CategoryList(ts)
    ensures forall c :: c in r <==> exists i :: 0 <= i < |ts| && ts[i].category == c
    ensures forall i, j :: 0 <= i < j < |r| ==> FirstIndex(CategoryList(ts), r[i]) < FirstIndex(CategoryList(ts), r[j])
  {
    var cs := CategoryList(ts);
    assert forall i :: 0 <= i < |ts| ==> cs[i] in cs;
    Distinct(cs)
  }

  /** The state of the to-do page: one field per piece of React state. */
  class TodoPage {
    var tasks: seq<Task>
    var newTask: string
    var newTaskDueDate: string
    var newTaskPriority: string
    var newTaskCategory: string
    var filter: string
    var categoryFilter: string
    var editingTask: Option<Task>

    /** The page as first rendered; `initialTasks` is the sample list and `today` the formatted current date. */
    constructor (initialTasks: seq<Task>, today: string)
      ensures tasks == initialTasks && newTask == ""
      ensures newTaskDueDate == today && newTaskPriority == "medium" && newTaskCategory == "personal"
      ensures filter == "all" && categoryFilter == "all" && editingTask == None
    {
      tasks := initialTasks;
      newTask := "";
      newTaskDueDate := today;
      newTaskPriority := "medium";
      newTaskCategory := "personal";
      filter := "all";
      categoryFilter := "all";
      editingTask := None;
    }

    /** Form submit: a blank title is ignored; otherwise one task built from the form
        (title as typed, not trimmed) is appended and the title box is cleared.
        `id` stands for `Date.now()`. */
    method AddTask(id: int)
      modifies this`tasks, this`newTask
      ensures IsBlank(old(newTask)) ==> tasks == old(tasks) && newTask == old(newTask)
      ensures !IsBlank(old(newTask)) ==>
        && tasks == old(tasks) + [Task(id, old(newTask), false, newTaskDueDate, newTaskPriority, newTaskCategory)]
        && newTask == ""
      ensures old(UniqueIds(tasks)) && !HasId(old(tasks), id) ==> UniqueIds(tasks)
    {
      if IsBlank(newTask) {
        return;
      }
      var t := Task(id, newTask, false, newTaskDueDate, newTaskPriority, newTaskCategory);
      if UniqueIds(tasks) && !HasId(tasks, id) {
        UniqueIdsPreserved(tasks, id, t, t);
      }
      tasks := tasks + [t];
      newTask := "";
    }

    method ToggleTaskCompletion(id: int)
      modifies this`tasks
      ensures tasks == Toggled(old(tasks), id)
      ensures old(UniqueIds(tasks)) ==> UniqueIds(tasks)
    {
      if UniqueIds(tasks) {
        UniqueIdsPreserved(tasks, id, Task(id, "", false, "", "", ""), Task(id, "", false, "", "", ""));
      }
      tasks := Toggled(tasks, id);
    }

    method DeleteTask(id: int)
      modifies this`tasks
      ensures tasks == WithoutTask(old(tasks), id)
      ensures old(UniqueIds(tasks)) ==> UniqueIds(tasks)
    {
      if UniqueIds(tasks) {
        UniqueIdsPreserved(tasks, id, Task(id, "", false, "", "", ""), Task(id, "", false, "", "", ""));
      }
      tasks := WithoutTask(tasks, id);
    }

    /** Opens the inline editor on a copy of `task`. */
    method StartEditingTask(task: Task)
      modifies this`editingTask
      ensures editingTask == Some(task)
    {
      editingTask := Some(task);
    }

    method CancelEditing()
      modifies this`editingTask
      ensures editingTask == None
    {
      editingTask := None;
    }

    /** With nothing being edited this does nothing; otherwise the edited copy
        replaces the tasks carrying its id and the editor closes. */
    method SaveEditedTask()
      modifies this`tasks, this`editingTask
      ensures old(editingTask).None? ==> tasks == old(tasks)
      ensures old(editingTask).Some? ==> tasks == Replaced(old(tasks), old(editingTask).value)
      ensures editingTask == None
      ensures old(UniqueIds(tasks)) ==> UniqueIds(tasks)
    {
      if editingTask.None? {
        return;
      }
      var edited := editingTask.value;
      if UniqueIds(tasks) {
        UniqueIdsPreserved(tasks, edited.id, edited, edited);
      }
      tasks := Replaced(tasks, edited);
      editingTask := None;
    }

    /** The tasks the list shows under the current filter buttons. */
    function FilteredTasks(): (r: seq<Task>)
      reads this
      ensures Subsequence(r, tasks)
      ensures forall t :: t in r <==> t in tasks && MatchesStatus(t, filter) && MatchesCategory(t, categoryFilter)
      ensures forall t :: multiset(r)[t] == if MatchesStatus(t, filter) && MatchesCategory(t, categoryFilter) then multiset(tasks)[t] else 0
    {
      FilterTasksOrder(tasks, filter, categoryFilter);
      FilterTasks(tasks, filter, categoryFilter)
    }

    /** The category buttons offered in the sidebar. */
    function Categories(): (r: seq<string>)
      reads this
      ensures NoDuplicates(r)
      ensures forall c :: c in r <==> exists i :: 0 <= i < |tasks| && tasks[i].category == c
    {
      CategoriesOf(tasks)
    }
  }

  /** The walk-through: on an empty list, add "Buy milk", toggle it twice, delete it. */
  method BuyMilkScenario(id: int, today: string)
  {
    var page := new TodoPage([], today);
    page.newTask := "Buy milk";
    assert !IsSpace(page.newTask[0]);
    page.AddTask(id);
    assert page.tasks == [Task(id, "Buy milk", false, today, "medium", "personal")];
    page.ToggleTaskCompletion(id);
    assert page.tasks == [Task(id, "Buy milk", true, today, "medium", "personal")];
    page.ToggleTaskCompletion(id);
    assert page.tasks == [Task(id, "Buy milk", false, today, "medium", "personal")];
    page.DeleteTask(id);
    assert page.tasks == [];
  }
}
