/** The `TimelineView` component (src/components/TimelineView.jsx:50-172):
    the task list, the add-task modal and its draft, and the handlers that
    change them. */
module TimelineView {
  import opened Tasks
  import opened TaskItem

  /** `timeSlots`: the 24 hour rows, 0 to 23 (line 60). */
  const Hours: seq<int> := seq(24, i => i)

  /** `colors`: the six swatches of the add-task form (line 61). */
  const Palette: seq<string> :=
    ["bg-blue-500", "bg-green-500", "bg-yellow-500", "bg-red-500", "bg-purple-500", "bg-pink-500"]

  /** The form state `newTask`: a task without an id. */
  datatype Draft = Draft(name: string, start: int, duration: int, color: string)

  /** The value `newTask` starts with and is reset to (lines 58, 84, 90). */
  const DefaultDraft: Draft := Draft("", 0, 1, "bg-purple-500")

  /** The three tasks the component starts with (lines 52-56). */
  const InitialTasks: seq<Task> := [
    Task(1, "Meeting", 9, 2, "bg-blue-500"),
    Task(2, "Coding", 13, 3, "bg-green-500"),
    Task(3, "Break", 16, 1, "bg-yellow-500")
  ]

  /** The component state that the handlers change: `tasks`,
      `isAddingTask` and `newTask`. */
  datatype ViewState = ViewState(tasks: seq<Task>, isAddingTask: bool, newTask: Draft)

  const InitialState: ViewState := ViewState(InitialTasks, false, DefaultDraft)

  /** What holds between events: a closed modal always has the default draft
      behind it, ids are unique, and every colour comes from the palette. */
  ghost predicate Inv(s: ViewState)
  {
    && (!s.isAddingTask ==> s.newTask == DefaultDraft)
    && UniqueIds(s.tasks)
    && s.newTask.color in Palette
    && (forall t :: t in s.tasks ==> t.color in Palette)
  }

  // ---------------------------------------------------------------------------
  // The handlers as transitions of the state
  // ---------------------------------------------------------------------------

  /** `handleTimelineClick(hour)` (lines 73-78). */
  function TimelineClick(s: ViewState, hour: int): ViewState
  {
    if !s.isAddingTask then s.(isAddingTask := true, newTask := s.newTask.(start := hour)) else s
  }

  /** The task `handleAddTask` appends: the draft's fields, unclamped, and the id. */
  function TaskOf(d: Draft, id: int): Task
  {
    Task(id, d.name, d.start, d.duration, d.color)
  }

  /** `handleAddTask` (lines 80-86), with `Date.now()` passed in as `freshId`. */
  function AddTask(s: ViewState, freshId: int): ViewState
  {
    if s.newTask.name != "" then
      ViewState(s.tasks + [TaskOf(s.newTask, freshId)], false, DefaultDraft)
    else
      s
  }

  /** `handleCancelAdd` (lines 88-91). */
  function CancelAdd(s: ViewState): ViewState
  {
    s.(isAddingTask := false, newTask := DefaultDraft)
  }

  /** `moveTask(id, newStart)` (lines 93-101) applied to the state. */
  function Move(s: ViewState, id: int, newStart: int): ViewState
  {
    s.(tasks := MoveTask(s.tasks, id, newStart))
  }

  /** The draft setters of the modal form (lines 135, 143, 150, 158). */
  function EditName(s: ViewState, name: string): ViewState
  {
    s.(newTask := s.newTask.(name := name))
  }

  function EditStart(s: ViewState, start: int): ViewState
  {
    s.(newTask := s.newTask.(start := start))
  }

  function EditDuration(s: ViewState, duration: int): ViewState
  {
    s.(newTask := s.newTask.(duration := duration))
  }

  function EditColor(s: ViewState, color: string): ViewState
  {
    s.(newTask := s.newTask.(color := color))
  }

  // ---------------------------------------------------------------------------
  // Properties of the state machine
  // ---------------------------------------------------------------------------

  /** The initial state satisfies the invariant. */
  lemma InitialStateValid()
    ensures Inv(InitialState)
  {
  }

  /** A click on an hour row with the modal closed opens it on a default draft
      that starts at that hour; with the modal open a click is ignored, so a
      second click keeps the first click's hour. */
  lemma TimelineClickOpensOnce(s: ViewState, h1: int, h2: int)
    requires Inv(s)
    ensures !s.isAddingTask ==>
              TimelineClick(s, h1) == ViewState(s.tasks, true, DefaultDraft.(start := h1))
    ensures s.isAddingTask ==> TimelineClick(s, h1) == s
    ensures TimelineClick(TimelineClick(s, h1), h2) == TimelineClick(s, h1)
    ensures Inv(TimelineClick(s, h1))
  {
  }

  /** Committing a draft with the empty name changes nothing: the list, the
      modal flag and the draft stay as they are. In particular a commit with
      the modal closed is a no-op, since the draft behind it is the default. */
  lemma AddTaskRejectsEmptyName(s: ViewState, freshId: int)
    ensures s.newTask.name == "" ==> AddTask(s, freshId) == s
    ensures Inv(s) && !s.isAddingTask ==> AddTask(s, freshId) == s
  {
  }

  /** Committing a named draft appends exactly one task carrying the draft's
      fields and the fresh id, keeps the old list as a prefix, closes the
      modal and resets the draft; with a fresh id the invariant is kept and
      the set of ids grows by exactly that id. */
  lemma AddTaskAppends(s: ViewState, freshId: int)
    requires s.newTask.name != ""
    ensures var r := AddTask(s, freshId);
      && |r.tasks| == |s.tasks| + 1
      && r.tasks[..|s.tasks|] == s.tasks
      && r.tasks[|s.tasks|] == Task(freshId, s.newTask.name, s.newTask.start, s.newTask.duration, s.newTask.color)
      && !r.isAddingTask && r.newTask == DefaultDraft
      && Ids(r.tasks) == Ids(s.tasks) + {freshId}
  {
  }

  /** A commit with an id not yet in the list keeps the invariant. */
  lemma AddTaskKeepsInv(s: ViewState, freshId: int)
    requires Inv(s) && freshId !in Ids(s.tasks)
    ensures Inv(AddTask(s, freshId))
  {
  }

  /** Cancelling always leaves the modal closed on the default draft with the
      task list untouched; a second cancel changes nothing, and cancelling a
      draft just opened by a click returns to the state before the click. */
  lemma CancelAddResets(s: ViewState, h: int)
    requires Inv(s)
    ensures var r := CancelAdd(s);
      !r.isAddingTask && r.newTask == DefaultDraft && r.tasks == s.tasks && Inv(r)
    ensures CancelAdd(CancelAdd(s)) == CancelAdd(s)
    ensures !s.isAddingTask ==> CancelAdd(TimelineClick(s, h)) == s
  {
  }

  /** Repositioning keeps the invariant and leaves the modal and draft alone. */
  lemma MoveKeepsInv(s: ViewState, id: int, newStart: int)
    requires Inv(s)
    ensures Inv(Move(s, id, newStart))
    ensures Move(s, id, newStart).isAddingTask == s.isAddingTask
    ensures Move(s, id, newStart).newTask == s.newTask
  {
    var r := MoveTask(s.tasks, id, newStart);
    MoveTaskKeepsIds(s.tasks, id, newStart);
    MoveTaskKeepsOtherFields(s.tasks, id, newStart);
    forall t | t in r ensures t.color in Palette {
      var k :| 0 <= k < |r| && r[k] == t;
      assert s.tasks[k] in s.tasks;
    }
  }

  /** The form setters keep the invariant while the modal is open (the form is
      only on screen then), as long as a chosen colour is a palette swatch.
      Each one sets its own field of the draft and leaves the other draft
      fields, the task list and the modal flag as they were. */
  lemma EditsKeepInv(s: ViewState, name: string, start: int, duration: int, color: string)
    requires Inv(s) && s.isAddingTask && color in Palette
    ensures Inv(EditName(s, name)) && Inv(EditStart(s, start))
    ensures Inv(EditDuration(s, duration)) && Inv(EditColor(s, color))
    ensures EditName(s, name).newTask == Draft(name, s.newTask.start, s.newTask.duration, s.newTask.color)
    ensures EditStart(s, start).newTask == Draft(s.newTask.name, start, s.newTask.duration, s.newTask.color)
    ensures EditDuration(s, duration).newTask == Draft(s.newTask.name, s.newTask.start, duration, s.newTask.color)
    ensures EditColor(s, color).newTask == Draft(s.newTask.name, s.newTask.start, s.newTask.duration, color)
    ensures forall e :: e in {EditName(s, name), EditStart(s, start), EditDuration(s, duration), EditColor(s, color)} ==>
              e.tasks == s.tasks && e.isAddingTask
  {
  }

  /** A repositioned task always lands on one of the 24 hour rows. */
  lemma MovedStartIsHourRow(ts: seq<Task>, id: int, newStart: int, i: int)
    requires 0 <= i < |ts| && ts[i].id == id
    ensures MoveTask(ts, id, newStart)[i].start in Hours
  {
    MoveTaskAt(ts, id, newStart, i);
    assert Hours[Clamp(newStart)] == Clamp(newStart);
  }

  /** Clicking hour 20, naming the draft "Review" and committing appends
      `Review` at hour 20 for one hour, in the default colour, after the
      three initial tasks, and closes the modal. */
  lemma AddReviewScenario()
    ensures var s := AddTask(EditName(TimelineClick(InitialState, 20), "Review"), 4);
      s == ViewState(InitialTasks + [Task(4, "Review", 20, 1, "bg-purple-500")], false, DefaultDraft)
  {
  }

  /** Hovering "Meeting" over the top strip of "Coding" moves Meeting to 13. */
  lemma DragMeetingScenario()
    ensures Hover(InitialTasks, 1, InitialTasks[1], Top)[0].start == 13
    ensures Hover(InitialTasks, 1, InitialTasks[1], Top)[1..] == InitialTasks[1..]
  {
  }

  // ---------------------------------------------------------------------------
  // The component, with its state as mutable fields
  // ---------------------------------------------------------------------------

  class Timeline {
    var tasks: seq<Task>
    var isAddingTask: bool
    var newTask: Draft

    function State(): ViewState
      reads this
    {
      ViewState(tasks, isAddingTask, newTask)
    }

    ghost predicate Valid()
      reads this
    {
      Inv(State())
    }

    /** The `useState` initial values (lines 52-58). */
    constructor ()
      ensures Valid() && State() == InitialState
    {
      tasks := InitialTasks;
      isAddingTask := false;
      newTask := DefaultDraft;
      InitialStateValid();
    }

    method HandleTimelineClick(hour: int)
      requires Valid()
      modifies this
      ensures Valid() && State() == TimelineClick(old(State()), hour)
    {
      if !isAddingTask {
        isAddingTask := true;
        newTask := newTask.(start := hour);
      }
    }

    /** `freshId` stands for `Date.now()`, which the component takes to be
        distinct from every id already in the list. */
    method HandleAddTask(freshId: int)
      requires Valid() && freshId !in Ids(tasks)
      modifies this
      ensures Valid() && State() == AddTask(old(State()), freshId)
    {
      AddTaskKeepsInv(State(), freshId);
      if newTask.name != "" {
        tasks := tasks + [TaskOf(newTask, freshId)];
        isAddingTask := false;
        newTask := DefaultDraft;
      }
    }

    method HandleCancelAdd()
      requires Valid()
      modifies this
      ensures Valid() && State() == CancelAdd(old(State()))
    {
      CancelAddResets(State(), 0);
      isAddingTask := false;
      newTask := DefaultDraft;
    }

    method MoveTask(id: int, newStart: int)
      requires Valid()
      modifies this
      ensures Valid() && State() == Move(old(State()), id, newStart)
    {
      MoveKeepsInv(State(), id, newStart);
      tasks := Tasks.MoveTask(tasks, id, newStart);
    }

    /** A hover event from a `TaskItem` drop strip (lines 17-21, 26-30). */
    method HoverEdge(draggedId: int, target: Task, edge: Edge)
      requires Valid()
      modifies this
      ensures Valid() && State() == old(State()).(tasks := Hover(old(tasks), draggedId, target, edge))
    {
      if draggedId != target.id {
        MoveTask(draggedId, EdgeStart(target, edge));
      }
    }

    method SetDraftName(name: string)
      requires Valid() && isAddingTask
      modifies this
      ensures Valid() && State() == EditName(old(State()), name)
    {
      newTask := newTask.(name := name);
    }

    method SetDraftStart(start: int)
      requires Valid() && isAddingTask
      modifies this
      ensures Valid() && State() == EditStart(old(State()), start)
    {
      newTask := newTask.(start := start);
    }

    method SetDraftDuration(duration: int)
      requires Valid() && isAddingTask
      modifies this
      ensures Valid() && State() == EditDuration(old(State()), duration)
    {
      newTask := newTask.(duration := duration);
    }

    /** Only the palette swatches call this setter. */
    method SetDraftColor(color: string)
      requires Valid() && isAddingTask && color in Palette
      modifies this
      ensures Valid() && State() == EditColor(old(State()), color)
    {
      newTask := newTask.(color := color);
    }
  }
}
