/** The task list: tasks are added from a text input, ticked off and deleted
    by id. The list is rebuilt as a whole on every change (a copy with one
    task appended, a `map`, a `filter`); each rebuild is a function on
    sequences here, and the class `TaskList` holds the list and the input
    text, its methods replacing them as the component does. The id of a new
    task is a clock reading (`Date.now()`) and comes in as a parameter. */
module Tasks {
  import opened Strings

  datatype Task = Task(id: int, text: string, completed: bool)

  // ---------------------------------------------------------------------
  // Toggling

  function FlipIfId(t: Task, id: int): Task {
    if t.id == id then t.(completed := !t.completed) else t
  }

  /** `tasks.map(...)` in `toggleTask(id)`: the tasks with that id change
      their completed flag; ids, texts, the length and the order stay. */
  function ToggleTasks(ts: seq<Task>, id: int): (r: seq<Task>)
    ensures |r| == |ts|
    ensures forall i :: 0 <= i < |ts| ==>
      r[i].completed == (ts[i].completed != (ts[i].id == id))
      && r[i].id == ts[i].id && r[i].text == ts[i].text
  {
    if ts == [] then [] else [FlipIfId(ts[0], id)] + ToggleTasks(ts[1..], id)
  }

  /** Toggling the same task twice restores the list. */
  lemma ToggleTasksTwice(ts: seq<Task>, id: int)
    ensures ToggleTasks(ToggleTasks(ts, id), id) == ts
  {
  }

  /** Toggling an id no task has changes nothing. */
  lemma ToggleAbsentId(ts: seq<Task>, id: int)
    requires forall i :: 0 <= i < |ts| ==> ts[i].id != id
    ensures ToggleTasks(ts, id) == ts
  {
  }

  // ---------------------------------------------------------------------
  // Deleting

  /** `tasks.filter(task => task.id !== id)` in `deleteTask(id)`: no task
      with that id is left, and every other task is kept. */
  function DeleteTasks(ts: seq<Task>, id: int): (r: seq<Task>)
    ensures |r| <= |ts|
    ensures forall t :: t in r <==> t in ts && t.id != id
  {
    if ts == [] then []
    else (if ts[0].id != id then [ts[0]] else []) + DeleteTasks(ts[1..], id)
  }

  /** Deleting works piece by piece: what is left of `a + b` is what is left
      of `a` followed by what is left of `b`, so the kept tasks stay in
      their original order. */
  lemma {:induction false} DeleteKeepsOrder(a: seq<Task>, b: seq<Task>, id: int)
    ensures DeleteTasks(a + b, id) == DeleteTasks(a, id) + DeleteTasks(b, id)
  {
    if a == [] {
      assert a + b == b;
    } else {
      assert (a + b)[1..] == a[1..] + b;
      DeleteKeepsOrder(a[1..], b, id);
    }
  }

  /** The list is left as it was exactly when no task has the id. */
  lemma {:induction false} DeleteChangesNothingIffAbsent(ts: seq<Task>, id: int)
    ensures DeleteTasks(ts, id) == ts <==> forall i :: 0 <= i < |ts| ==> ts[i].id != id
  {
    if ts != [] {
      DeleteChangesNothingIffAbsent(ts[1..], id);
      assert forall i :: 1 <= i < |ts| ==> ts[i] == ts[1..][i - 1];
    }
  }

  /** Deleting the same id twice is the same as deleting it once. */
  lemma DeleteIdempotent(ts: seq<Task>, id: int)
    ensures DeleteTasks(DeleteTasks(ts, id), id) == DeleteTasks(ts, id)
  {
    var r := DeleteTasks(ts, id);
    forall i | 0 <= i < |r| ensures r[i].id != id {
      assert r[i] in r;
    }
    DeleteChangesNothingIffAbsent(r, id);
  }

  // ---------------------------------------------------------------------
  // The component

  class TaskList {
    var tasks: seq<Task>
    var inputValue: string

    /** An empty list and an empty input. */
    constructor ()
      ensures tasks == [] && inputValue == ""
    {
      tasks := [];
      inputValue := "";
    }

    /** Typing in the input. */
    method SetInputValue(text: string)
      modifies this
      ensures inputValue == text && tasks == old(tasks)
    {
      inputValue := text;
    }

    /** `handleAddTask`, with `id` the clock reading it uses as the new task's
        id. Input that trims to nothing is ignored; otherwise one uncompleted
        task with the input text as typed, untrimmed, is appended and the
        input is cleared. */
    method AddTask(id: int)
      modifies this
      ensures AllWhitespace(old(inputValue)) ==> tasks == old(tasks) && inputValue == old(inputValue)
      ensures !AllWhitespace(old(inputValue)) ==>
        tasks == old(tasks) + [Task(id, old(inputValue), false)] && inputValue == ""
    {
      if Trim(inputValue) == [] {
        return;
      }
      var newTask := Task(id, inputValue, false);
      tasks := tasks + [newTask];
      inputValue := "";
    }

    method ToggleTask(id: int)
      modifies this
      ensures tasks == ToggleTasks(old(tasks), id) && inputValue == old(inputValue)
    {
      tasks := ToggleTasks(tasks, id);
    }

    method DeleteTask(id: int)
      modifies this
      ensures tasks == DeleteTasks(old(tasks), id) && inputValue == old(inputValue)
    {
      tasks := DeleteTasks(tasks, id);
    }
  }
}
