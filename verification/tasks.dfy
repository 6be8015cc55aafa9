/**
 * The Tasks window: a list of tasks, newest first, edited by the handlers,
 * and the filtered view and counters computed from it. Due dates are day
 * numbers; today's day number is passed in where the overdue count needs it.
 */
module Tasks {
  import opened Options
  import opened Strings
  import opened Lists

  datatype Priority = Low | Medium | High

  datatype Task = Task(
    id: string,
    title: string,
    completed: bool,
    priority: Priority,
    dueDate: Option<nat>,
    category: string,
    starred: bool,
    createdAt: nat)

  /** The status filter of the sidebar. */
  datatype StatusFilter = AllTasks | ActiveTasks | CompletedTasks | StarredTasks

  const AllCategories: string := "all"

  /** Toggling completion or the star: the flag flips and nothing else changes. */
  function FlipCompleted(t: Task): (r: Task)
    ensures r.id == t.id && r.completed == !t.completed && r.(completed := t.completed) == t
  {
    t.(completed := !t.completed)
  }

  function FlipStarred(t: Task): (r: Task)
    ensures r.id == t.id && r.starred == !t.starred && r.(starred := t.starred) == t
  {
    t.(starred := !t.starred)
  }

  /** The list after rewriting the tasks with the id by `f`. */
  function Updated(tasks: seq<Task>, id: string, f: Task -> Task): (r: seq<Task>)
    ensures |r| == |tasks|
    ensures forall k :: 0 <= k < |r| ==> r[k] == if tasks[k].id == id then f(tasks[k]) else tasks[k]
  {
    MapWhere(tasks, (t: Task) => t.id == id, f)
  }

  /** Toggling a task's completion twice, or its star twice, restores the list. */
  lemma ToggleTwiceRestores(tasks: seq<Task>, id: string)
    ensures Updated(Updated(tasks, id, FlipCompleted), id, FlipCompleted) == tasks
    ensures Updated(Updated(tasks, id, FlipStarred), id, FlipStarred) == tasks
  {
    MapWhereTwice(tasks, (t: Task) => t.id == id, FlipCompleted);
    MapWhereTwice(tasks, (t: Task) => t.id == id, FlipStarred);
  }

  /** The list without the tasks with the id, in the same order. */
  function Without(tasks: seq<Task>, id: string): (r: seq<Task>)
    ensures forall t :: t in r <==> t in tasks && t.id != id
    ensures (forall k :: 0 <= k < |tasks| ==> tasks[k].id != id) ==> r == tasks
  {
    Filter(tasks, (t: Task) => t.id != id)
  }

  /** Whether the view shows a task: the search, the category and the status filter all let it through. */
  predicate Shown(t: Task, query: string, category: string, filter: StatusFilter) {
    && (query == "" || ContainsIgnoringCase(t.title, query))
    && (category == AllCategories || t.category == category)
    && match filter
       case ActiveTasks => !t.completed
       case CompletedTasks => t.completed
       case StarredTasks => t.starred
       case AllTasks => true
  }

  /** The tasks the view shows, in list order. */
  function Visible(tasks: seq<Task>, query: string, category: string, filter: StatusFilter): (r: seq<Task>)
    ensures forall t :: t in r <==> t in tasks && Shown(t, query, category, filter)
  {
    Filter(tasks, (t: Task) => Shown(t, query, category, filter))
  }

  /** With no search, every category and every status, the view is the whole list. */
  lemma UnfilteredShowsAll(tasks: seq<Task>)
    ensures Visible(tasks, "", AllCategories, AllTasks) == tasks
  {
  }

  /** A task is overdue when it is not done and its due day is before today. */
  predicate Overdue(t: Task, today: nat) {
    !t.completed && t.dueDate.Some? && t.dueDate.value < today
  }

  datatype Stats = Stats(total: nat, completed: nat, active: nat, overdue: nat)

  /** The sidebar counters. */
  function StatsOf(tasks: seq<Task>, today: nat): (s: Stats)
    ensures s.total == |tasks|
  {
    Stats(
      |tasks|,
      CountWhere(tasks, (t: Task) => t.completed),
      CountWhere(tasks, (t: Task) => !t.completed),
      CountWhere(tasks, (t: Task) => Overdue(t, today)))
  }

  /** Every task is either completed or active, and only active tasks are overdue. */
  lemma CountersAddUp(tasks: seq<Task>, today: nat)
    ensures var s := StatsOf(tasks, today); s.completed + s.active == s.total && s.overdue <= s.active
  {
    CountWhereSplits(tasks, (t: Task) => t.completed, (t: Task) => !t.completed);
    CountWhereMonotone(tasks, (t: Task) => Overdue(t, today), (t: Task) => !t.completed);
  }

  class TasksApp {
    var tasks: seq<Task>
    var newTaskTitle: string
    var newTaskPriority: Priority
    var newTaskCategory: string
    var newTaskDueDate: Option<nat>
    var showNewTaskForm: bool
    var selectedCategory: string
    var filter: StatusFilter
    var searchQuery: string
    var editingTask: Option<string>

    constructor ()
      ensures tasks == [] && newTaskTitle == "" && newTaskPriority == Medium && newTaskCategory == "personal"
      ensures newTaskDueDate.None? && !showNewTaskForm
      ensures selectedCategory == AllCategories && filter == AllTasks && searchQuery == "" && editingTask.None?
    {
      tasks := [];
      newTaskTitle := "";
      newTaskPriority := Medium;
      newTaskCategory := "personal";
      newTaskDueDate := None;
      showNewTaskForm := false;
      selectedCategory := AllCategories;
      filter := AllTasks;
      searchQuery := "";
      editingTask := None;
    }

    /**
     * Add: a blank title does nothing; otherwise one open, unstarred task
     * with the title as typed goes first, and the form is reset and hidden.
     */
    method AddTask(id: string, now: nat)
      modifies this`tasks, this`newTaskTitle, this`newTaskDueDate, this`showNewTaskForm
      ensures IsBlank(old(newTaskTitle)) ==>
        && tasks == old(tasks) && newTaskTitle == old(newTaskTitle)
        && newTaskDueDate == old(newTaskDueDate) && showNewTaskForm == old(showNewTaskForm)
      ensures !IsBlank(old(newTaskTitle)) ==>
        && tasks == [Task(id, old(newTaskTitle), false, newTaskPriority, old(newTaskDueDate), newTaskCategory, false, now)] + old(tasks)
        && newTaskTitle == "" && newTaskDueDate.None? && !showNewTaskForm
    {
      TrimEmptyIffBlank(newTaskTitle);
      if Trim(newTaskTitle) == [] {
        return;
      }
      var task := Task(id, newTaskTitle, false, newTaskPriority, newTaskDueDate, newTaskCategory, false, now);
      tasks := [task] + tasks;
      newTaskTitle := "";
      newTaskDueDate := None;
      showNewTaskForm := false;
    }

    method ToggleTask(id: string)
      modifies this`tasks
      ensures tasks == Updated(old(tasks), id, FlipCompleted)
    {
      tasks := Updated(tasks, id, FlipCompleted);
    }

    method ToggleStar(id: string)
      modifies this`tasks
      ensures tasks == Updated(old(tasks), id, FlipStarred)
    {
      tasks := Updated(tasks, id, FlipStarred);
    }

    method DeleteTask(id: string)
      modifies this`tasks
      ensures tasks == Without(old(tasks), id)
      ensures forall t :: t in tasks ==> t.id != id
    {
      tasks := Without(tasks, id);
    }

    /** Renaming changes only the matching task's title, and ends editing. */
    method UpdateTaskTitle(id: string, title: string)
      modifies this`tasks, this`editingTask
      ensures |tasks| == |old(tasks)| && editingTask.None?
      ensures forall k :: 0 <= k < |tasks| ==>
        tasks[k] == if old(tasks)[k].id == id then old(tasks)[k].(title := title) else old(tasks)[k]
    {
      tasks := Updated(tasks, id, (t: Task) => t.(title := title));
      editingTask := None;
    }

    /** The list the view shows under the current search, category and filter. */
    function FilteredTasks(): (r: seq<Task>)
      reads this
      ensures forall t :: t in r <==> t in tasks && Shown(t, searchQuery, selectedCategory, filter)
    {
      Visible(tasks, searchQuery, selectedCategory, filter)
    }
  }
}
