/** The daily checklist: the fixed task template, the "all done" test and the toggle. */
module Tasks {

  /** One checklist entry; `color` is the entry's display class, kept because
      the toggle must leave it untouched. */
  datatype Task = Task(id: int, text: string, color: string, isChecked: bool)

  /** The template the checklist starts from and is reset to after each completion. */
  const InitialTasks: seq<Task> := [
    Task(1, "Web Dev Week 1 work", "border-blue-500 bg-blue-50", false),
    Task(2, "Internship BizLink", "border-red-500 bg-red-50", false),
    Task(3, "Uni Subjects", "border-green-500 bg-green-50", false)
  ]

  /** `tasks.every(task => task.isChecked)`: true of the empty list as well. */
  function AllTasksCompleted(tasks: seq<Task>): (b: bool)
    ensures b <==> forall i :: 0 <= i < |tasks| ==> tasks[i].isChecked
  {
    if tasks == [] then true else tasks[0].isChecked && AllTasksCompleted(tasks[1..])
  }

  /** The rule applied to each entry by the toggle's `map`. */
  function Flip(t: Task, taskId: int): Task {
    if t.id == taskId then t.(isChecked := !t.isChecked) else t
  }

  /** `prevTasks.map(...)`: flip `isChecked` on every entry whose id matches. */
  function ToggleTask(tasks: seq<Task>, taskId: int): (r: seq<Task>)
    ensures |r| == |tasks|
    ensures forall i :: 0 <= i < |tasks| ==>
      r[i].id == tasks[i].id && r[i].text == tasks[i].text && r[i].color == tasks[i].color
    ensures forall i :: 0 <= i < |tasks| ==>
      (r[i].isChecked != tasks[i].isChecked <==> tasks[i].id == taskId)
  {
    if tasks == [] then [] else [Flip(tasks[0], taskId)] + ToggleTask(tasks[1..], taskId)
  }

  /** The template starts with every entry unchecked, so it is never "all done". */
  lemma InitialTasksUnchecked()
    ensures |InitialTasks| == 3
    ensures forall i :: 0 <= i < |InitialTasks| ==> !InitialTasks[i].isChecked
    ensures !AllTasksCompleted(InitialTasks)
  {
    assert !InitialTasks[0].isChecked;
  }

  /** An id that no entry carries leaves the list as it was. */
  lemma {:induction false} ToggleUnknownId(tasks: seq<Task>, taskId: int)
    requires forall i :: 0 <= i < |tasks| ==> tasks[i].id != taskId
    ensures ToggleTask(tasks, taskId) == tasks
  {
    if tasks != [] {
      ToggleUnknownId(tasks[1..], taskId);
    }
  }

  /** Toggling the same id twice restores the list. */
  lemma {:induction false} ToggleTwice(tasks: seq<Task>, taskId: int)
    ensures ToggleTask(ToggleTask(tasks, taskId), taskId) == tasks
  {
    if tasks != [] {
      ToggleTwice(tasks[1..], taskId);
      assert ToggleTask(tasks, taskId)[1..] == ToggleTask(tasks[1..], taskId);
    }
  }

  /** Toggles of different ids commute: the checklist does not depend on the
      order in which two boxes are ticked. */
  lemma {:induction false} ToggleCommutes(tasks: seq<Task>, a: int, b: int)
    ensures ToggleTask(ToggleTask(tasks, a), b) == ToggleTask(ToggleTask(tasks, b), a)
  {
    if tasks != [] {
      ToggleCommutes(tasks[1..], a, b);
      assert ToggleTask(tasks, a)[1..] == ToggleTask(tasks[1..], a);
      assert ToggleTask(tasks, b)[1..] == ToggleTask(tasks[1..], b);
    }
  }
}
