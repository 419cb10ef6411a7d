/** The dashboard (src/pages/Dashboard.tsx): its own short task list with
    toggle, add and delete, the completion summary shown in the stats cards,
    and a list of recent diary entries that nothing on the page changes. */
module Dashboard {
  import opened Collections
  import opened Text

  /** The dashboard's tasks carry no priority or category. */
  datatype Task = Task(id: int, title: string, completed: bool, dueDate: string)

  datatype Note = Note(id: int, title: string, content: string, date: string)

  predicate HasId(ts: seq<Task>, id: int) {
    exists i :: 0 <= i < |ts| && ts[i].id == id
  }

  function CompletedTest(): Task -> bool {
    (t: Task) => t.completed
  }

  /** `completedTasks`: how many tasks are completed. At most the number of tasks;
      zero exactly when none is completed; the number of tasks exactly when all are. */
  function CompletedCount(ts: seq<Task>): (n: nat)
    ensures n <= |ts|
    ensures n == 0 <==> forall i :: 0 <= i < |ts| ==> !ts[i].completed
    ensures n == |ts| <==> forall i :: 0 <= i < |ts| ==> ts[i].completed
  {
    var done := Filter(ts, CompletedTest());
    FilterKeepsAll(ts, CompletedTest());
    assert forall i :: 0 <= i < |done| ==> done[i] in done;
    assert forall i :: 0 <= i < |ts| && ts[i].completed ==> ts[i] in done;
    |done|
  }

  /** Appending one task adds one to the count when it is completed and nothing otherwise. */
  lemma {:induction false} CompletedCountAppend(ts: seq<Task>, t: Task)
    ensures CompletedCount(ts + [t]) == CompletedCount(ts) + (if t.completed then 1 else 0)
  {
    FilterAppend(ts, [t], CompletedTest());
  }

  /** `completionRate`: 0 without tasks, otherwise `Math.round(completed / total * 100)`
      computed exactly (half rounds up). It lies in 0..100, is 0 when nothing is
      completed and 100 when everything is, and is within one half of the exact percentage. */
  function CompletionRate(completed: nat, total: nat): (r: int)
    requires completed <= total
    ensures 0 <= r <= 100
    ensures total == 0 ==> r == 0
    ensures completed == 0 ==> r == 0
    ensures 0 < total && completed == total ==> r == 100
    ensures 0 < total ==> 200 * completed - total < 2 * r * total <= 200 * completed + total
  {
    if total > 0 then
      var r := (200 * completed + total) / (2 * total);
      RateBounds(completed, total, r);
      r
    else 0
  }

  /** What rounding half up of `100 * c / t` guarantees, proved from the definition
      of integer division. */
  lemma RateBounds(c: nat, t: nat, r: int)
    requires c <= t && 0 < t && r == (200 * c + t) / (2 * t)
    ensures 0 <= r <= 100
    ensures c == 0 ==> r == 0
    ensures c == t ==> r == 100
    ensures 200 * c - t < 2 * r * t <= 200 * c + t
  {
    var b := 2 * t;
    Scaled(r, t);
    assert r * b <= 200 * c + t < r * b + b;
    ShiftedFactor(r, 1, b);
    ShiftedFactor(-r, 101, b);
    if c == 0 {
      ShiftedFactor(-r, 1, b);
    }
    if c == t {
      ShiftedFactor(r, -99, b);
    }
  }

  /** `2 * r * t` is `r` times the divisor `2 * t`. */
  lemma Scaled(r: int, t: int)
    ensures 2 * r * t == r * (2 * t) && -r * (2 * t) == -(r * (2 * t))
  {
  }

  /** A product with a positive factor `b` is positive only if the other factor is,
      stated for a shifted factor `x + k` whose product is given linearly. */
  lemma ShiftedFactor(x: int, k: int, b: int)
    requires b > 0 && x * b + k * b > 0
    ensures x + k > 0
  {
    assert (x + k) * b == x * b + k * b;
  }

  /** The list after `toggleTaskCompletion(id)`: same length and order, `completed`
      flipped on exactly the tasks carrying `id`, every other field untouched. */
  function Toggled(ts: seq<Task>, id: int): (r: seq<Task>)
    ensures |r| == |ts|
    ensures forall i :: 0 <= i < |ts| ==> r[i] == ts[i].(completed := r[i].completed)
    ensures forall i :: 0 <= i < |ts| ==> (r[i].completed != ts[i].completed <==> ts[i].id == id)
  {
    seq(|ts|, i requires 0 <= i < |ts| => if ts[i].id == id then ts[i].(completed := !ts[i].completed) else ts[i])
  }

  /** Toggling the same id twice gives back the original list; an unknown id changes nothing. */
  lemma ToggledTwice(ts: seq<Task>, id: int)
    ensures Toggled(Toggled(ts, id), id) == ts
    ensures !HasId(ts, id) ==> Toggled(ts, id) == ts
  {
    var once := Toggled(ts, id);
    forall i | 0 <= i < |ts| ensures Toggled(once, id)[i] == ts[i] {
      assert once[i].id == ts[i].id;
    }
    if !HasId(ts, id) {
      forall i | 0 <= i < |ts| ensures once[i] == ts[i] {
        assert ts[i].id != id;
      }
    }
  }

  function IdIsNot(id: int): Task -> bool {
    (t: Task) => t.id != id
  }

  /** The list after `deleteTask(id)`: the tasks not carrying `id`, in their original order. */
  function WithoutTask(ts: seq<Task>, id: int): (r: seq<Task>)
    ensures Subsequence(r, ts)
    ensures forall t :: t in r <==> t in ts && t.id != id
    ensures forall t :: multiset(r)[t] == if t.id != id then multiset(ts)[t] else 0
    ensures !HasId(r, id)
  {
    var r := Filter(ts, IdIsNot(id));
    FilterMultiplicity(ts, IdIsNot(id));
    assert forall i :: 0 <= i < |r| ==> r[i] in r;
    r
  }

  /** Deleting an absent id changes nothing, and only then. */
  lemma WithoutTaskAbsent(ts: seq<Task>, id: int)
    ensures WithoutTask(ts, id) == ts <==> !HasId(ts, id)
  {
    FilterKeepsAll(ts, IdIsNot(id));
  }

  /** The state of the dashboard: one field per piece of React state. */
  class DashboardPage {
    var tasks: seq<Task>
    var diaryEntries: seq<Note>
    var newTask: string

    /** The page as first rendered with the sample tasks and entries. */
    constructor (initialTasks: seq<Task>, initialEntries: seq<Note>)
      ensures tasks == initialTasks && diaryEntries == initialEntries && newTask == ""
    {
      tasks := initialTasks;
      diaryEntries := initialEntries;
      newTask := "";
    }

    function CompletedTasks(): (n: nat)
      reads this
      ensures n <= TotalTasks()
    {
      CompletedCount(tasks)
    }

    function TotalTasks(): nat
      reads this
    {
      |tasks|
    }

    /** The percentage shown in the progress card. */
    function CompletionPercent(): (r: int)
      reads this
      ensures 0 <= r <= 100
      ensures (forall i :: 0 <= i < |tasks| ==> !tasks[i].completed) ==> r == 0
      ensures tasks != [] && (forall i :: 0 <= i < |tasks| ==> tasks[i].completed) ==> r == 100
    {
      CompletionRate(CompletedTasks(), TotalTasks())
    }

    /** The handlers below name only `tasks` and `newTask` in their frames: none of
        them touches `diaryEntries`, whose setter the page never calls. */
    method ToggleTaskCompletion(id: int)
      modifies this`tasks
      ensures tasks == Toggled(old(tasks), id)
    {
      tasks := Toggled(tasks, id);
    }

    /** Form submit: a blank title is ignored; otherwise an incomplete task due `today`
        is appended and the input cleared. `id` stands for `Date.now()`. */
    method AddTask(id: int, today: string)
      modifies this`tasks, this`newTask
      ensures IsBlank(old(newTask)) ==> tasks == old(tasks) && newTask == old(newTask)
      ensures !IsBlank(old(newTask)) ==>
        tasks == old(tasks) + [Task(id, old(newTask), false, today)] && newTask == ""
      ensures CompletedTasks() == old(CompletedTasks())
    {
      if IsBlank(newTask) {
        return;
      }
      var t := Task(id, newTask, false, today);
      CompletedCountAppend(tasks, t);
      tasks := tasks + [t];
      newTask := "";
    }

    method DeleteTask(id: int)
      modifies this`tasks
      ensures tasks == WithoutTask(old(tasks), id)
    {
      tasks := WithoutTask(tasks, id);
    }
  }
}
