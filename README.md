# Day timeline: task state machine and drag rule

This project models the logic of the `TimelineView` React component, a one-day timeline with 24 hour rows. Each task is an absolutely positioned block that can be dragged. New tasks are added through a modal form.

The model has three modules:

- `Tasks` (`tasks.dfy`) holds the task record and `moveTask`. `moveTask` is the list update that repositions a task by id and clamps its start into [0, 23]. It is written as a recursive function over the list and proved against an element-by-element description.
- `TaskItem` (`task_item.dfy`) holds two parts of the `TaskItem` component. The first is the hover rule of its two drop strips: a top strip moves the dragged task to the target's start, and a bottom strip moves it to the target's end hour. The second is the block layout: `top = start*3` rem and `height = duration*3` rem.
- `TimelineView` (`timeline_view.dfy`) holds the component state (`tasks`, `isAddingTask`, `newTask`), the 24 hour slots, the six-colour palette and the initial tasks. It also has the class `Timeline`, with one method per handler and per form setter.

Each method changes the fields in place. Its contract ties the new state to a transition function of the old state (`TimelineClick`, `AddTask`, `CancelAdd`, `Move`, `Edit*`). It also keeps the invariant `Inv`, which says four things:

- while the modal is closed, the draft equals the default `{name: "", start: 0, duration: 1, color: "bg-purple-500"}`;
- task ids are unique;
- every task's colour is a palette swatch;
- the draft's colour is a palette swatch.

Properties that relate several events are lemmas on the transition functions. Examples: a second click keeps the first hour; cancelling a draft that was just opened restores the state before the click; a move with the same id and start is idempotent; moves of different ids commute.

A whitespace-only name is accepted. `src/components/TimelineView.jsx:81` tests only the truthiness of the name, so only `""` is rejected. `AddTaskAppends` therefore applies to any non-empty name, including `" "`.

There is no hit-test from a vertical position to an hour. Each hour row passes its own hour to the click handler (`src/components/TimelineView.jsx:116-117`), so `HandleTimelineClick` takes the hour directly.

## Model

| member | source | states |
|---|---|---|
| `Tasks.Clamp` | src/components/TimelineView.jsx:97 | the result always lies in [0, 23]; an in-range start is kept, a start below 0 becomes 0 and one above 23 becomes 23 |
| `Tasks.MoveTask` | src/components/TimelineView.jsx:93-101 | the `map` keeps the length of the task list |
| `Tasks.MoveTaskAt` | src/components/TimelineView.jsx:95-99 | position i of the result is position i of the input, with its start replaced by the clamped value exactly when its id matches |
| `Tasks.MoveTaskClampsStart` | src/components/TimelineView.jsx:96-97 | every task with the requested id gets start `max(0, min(23, newStart))`, so its start is in [0, 23] for any integer request |
| `Tasks.MoveTaskKeepsOtherFields` | src/components/TimelineView.jsx:95-98 | length and order are kept; id, name, duration and colour of every task are unchanged; tasks with another id are unchanged |
| `Tasks.MoveTaskAbsent` | src/components/TimelineView.jsx:94-99 | if no task has the id, the list is unchanged |
| `Tasks.MoveTaskKeepsIds` | src/components/TimelineView.jsx:95-99 | the set of ids is unchanged, and unique ids stay unique |
| `Tasks.MoveTaskLastWins` | src/components/TimelineView.jsx:97 | moving a task twice gives the same list as moving it only to the second start |
| `Tasks.MoveTaskIdempotent` | src/components/TimelineView.jsx:97 | repeating the same move gives the same list as doing it once |
| `Tasks.MoveTaskCommutes` | src/components/TimelineView.jsx:93-101 | moves of two different ids give the same list in either order |
| `TaskItem.HoverMovesDragged` | src/components/TimelineView.jsx:15-31 | a hover over the dragged task's own block is a no-op; otherwise the dragged task gets the clamped target start (top strip) or the clamped target start plus duration (bottom strip), and every other task, the target included, is unchanged |
| `TaskItem.HoverRepeatIsStable` | src/components/TimelineView.jsx:15-31 | repeated hover events over the same strip move the task no further than the first one did |
| `TaskItem.LayoutCoversItsHours` | src/components/TimelineView.jsx:38-39 | a block covers hour row h completely if and only if h is one of its hours, and it does not overlap any other row |
| `TaskItem.LayoutWithinGrid` | src/components/TimelineView.jsx:38-39 | a block lies inside the 24-row grid if and only if it starts at or after hour 0 and ends by hour 24 |
| `TaskItem.HoverTopAligns` | src/components/TimelineView.jsx:17-20 | after a hover over a top strip whose target starts in [0, 23], the dragged block's top offset equals the target's |
| `TaskItem.HoverBottomAbuts` | src/components/TimelineView.jsx:26-29 | after a hover over a bottom strip whose target ends by hour 23, the dragged block starts at the target block's bottom offset |
| `TaskItem.HoverBottomPastLastHour` | src/components/TimelineView.jsx:26-29 | after a hover over a bottom strip whose target ends after hour 23, the dragged task is clamped to 23, so its block starts above the target's bottom offset instead of at it |
| `TimelineView.InitialStateValid` | src/components/TimelineView.jsx:52-58 | the initial tasks and the default draft satisfy the invariant |
| `TimelineView.TimelineClickOpensOnce` | src/components/TimelineView.jsx:73-78 | a click with the modal closed opens it on the default draft with the clicked start and leaves the tasks alone; with the modal open a click is a no-op, so a second click keeps the first hour; the invariant is kept |
| `TimelineView.AddTaskRejectsEmptyName` | src/components/TimelineView.jsx:80-86 | a commit with name `""` changes nothing, so a commit while the modal is closed changes nothing either |
| `TimelineView.AddTaskAppends` | src/components/TimelineView.jsx:82-84 | a commit with a non-empty name appends one task with the draft's unclamped name, start, duration and colour and the fresh id; the old list is a prefix; the modal closes; the draft resets; the id set grows by exactly the fresh id |
| `TimelineView.AddTaskKeepsInv` | src/components/TimelineView.jsx:80-86 | a commit with an id not already in the list keeps the invariant, including unique ids |
| `TimelineView.CancelAddResets` | src/components/TimelineView.jsx:88-91 | cancel leaves the modal closed on the default draft with the tasks unchanged; it is idempotent; a cancel right after an opening click restores the earlier state |
| `TimelineView.MoveKeepsInv` | src/components/TimelineView.jsx:93-101 | repositioning keeps the invariant and does not touch the modal or the draft |
| `TimelineView.EditsKeepInv` | src/components/TimelineView.jsx:134-159 | the four form setters keep the invariant while the modal is open; each sets exactly its own draft field (name, start, duration or colour), keeps the other draft fields, and leaves the task list and the open modal unchanged |
| `TimelineView.MovedStartIsHourRow` | src/components/TimelineView.jsx:60 | a repositioned task always starts on one of the 24 hour slots |
| `TimelineView.AddReviewScenario` | src/components/TimelineView.jsx:52-86 | clicking hour 20, naming the draft "Review" and committing appends `Review` at 20 for one hour, after the three initial tasks, with the modal closed |
| `TimelineView.DragMeetingScenario` | src/components/TimelineView.jsx:15-21 | hovering "Meeting" over the top strip of "Coding" moves Meeting to 13 and leaves the other tasks alone |
| `TimelineView.Timeline.constructor` | src/components/TimelineView.jsx:51-58 | the component starts with the three initial tasks, the modal closed and the default draft |
| `TimelineView.Timeline.HandleTimelineClick` | src/components/TimelineView.jsx:73-78 | the fields change as `TimelineClick` says, and the invariant is kept |
| `TimelineView.Timeline.HandleAddTask` | src/components/TimelineView.jsx:80-86 | the fields change as `AddTask` says, and the invariant is kept |
| `TimelineView.Timeline.HandleCancelAdd` | src/components/TimelineView.jsx:88-91 | the fields change as `CancelAdd` says, and the invariant is kept |
| `TimelineView.Timeline.MoveTask` | src/components/TimelineView.jsx:93-101 | the task list becomes `Tasks.MoveTask` of the old list; the modal and the draft are unchanged; the invariant is kept |
| `TimelineView.Timeline.HoverEdge` | src/components/TimelineView.jsx:15-31 | the task list becomes `Hover` of the old list; nothing else changes |
| `TimelineView.Timeline.SetDraftName` | src/components/TimelineView.jsx:135 | only the draft's name changes |
| `TimelineView.Timeline.SetDraftStart` | src/components/TimelineView.jsx:143 | only the draft's start changes |
| `TimelineView.Timeline.SetDraftDuration` | src/components/TimelineView.jsx:150 | only the draft's duration changes |
| `TimelineView.Timeline.SetDraftColor` | src/components/TimelineView.jsx:158 | only the draft's colour changes, to a palette swatch |

## Left out

- `changeDate` and `formatDate` (lines 63-71) and the `currentDate` state are not modelled. They depend on JavaScript `Date` calendar arithmetic and `ja-JP` locale formatting, and no task depends on the date.
- `Date.now()` id generation (line 82) is not modelled. `HandleAddTask` instead takes the id as a parameter and requires it to be new to the list. The source assumes uniqueness but does not ensure it.
- `parseInt` in the start and duration inputs (lines 143, 150) can produce `NaN`. The setters here take integers, so `NaN` and JavaScript floating-point numbers are not modelled.
- The draft setters require the modal to be open, because the form is only rendered then (line 126). `SetDraftColor` also requires a palette colour, because only the palette swatches call it (lines 154-160).
- The react-dnd wiring (`DndProvider`, `useDrag`, `useDrop`, the HTML5 backend) is a foreign library and is not modelled. The model keeps only the effect of each hover callback.
- JSX rendering, CSS classes, the opacity while dragging and the icons are presentation only and are not modelled.
- React's state batching and closure capture are not modelled: each handler runs to completion on the state left by the previous one.
- `tailwind.config.js` is build configuration with no logic and is not part of this model. The layout lemmas use Tailwind's default `h-12` row height of 3rem.
