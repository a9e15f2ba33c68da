/** The `TaskItem` component (src/components/TimelineView.jsx:6-48): where a
    task block is drawn and which move a drag hovering over it requests. */
module TaskItem {
  import opened Tasks

  /** The two thin drop zones of a block: its top strip and its bottom strip. */
  datatype Edge = Top | Bottom

  /** The start a hover over `target`'s edge asks for: the target's start for
      the top strip, the target's end hour for the bottom strip. */
  function EdgeStart(target: Task, edge: Edge): int
  {
    match edge
    case Top => target.start
    case Bottom => target.start + target.duration
  }

  /** The effect on the task list of one hover event of the task `draggedId`
      over `target`'s edge: a task hovering over its own block does nothing,
      any other hover calls `moveTask(draggedId, EdgeStart(target, edge))`. */
  function Hover(ts: seq<Task>, draggedId: int, target: Task, edge: Edge): seq<Task>
  {
    if draggedId == target.id then ts else MoveTask(ts, draggedId, EdgeStart(target, edge))
  }

  /** What one hover does to the list: a hover over the dragged task's own
      block is a no-op; otherwise every task with the dragged id starts at the
      clamped top or bottom hour of the target, and all other tasks (the
      target among them) are untouched. */
  lemma HoverMovesDragged(ts: seq<Task>, draggedId: int, target: Task, edge: Edge)
    ensures draggedId == target.id ==> Hover(ts, draggedId, target, edge) == ts
    ensures |Hover(ts, draggedId, target, edge)| == |ts|
    ensures forall i :: 0 <= i < |ts| && ts[i].id == draggedId && draggedId != target.id ==>
              Hover(ts, draggedId, target, edge)[i] == ts[i].(start := Clamp(EdgeStart(target, edge)))
    ensures forall i :: 0 <= i < |ts| && ts[i].id != draggedId ==>
              Hover(ts, draggedId, target, edge)[i] == ts[i]
  {
    if draggedId != target.id {
      forall i | 0 <= i < |ts|
        ensures MoveTask(ts, draggedId, EdgeStart(target, edge))[i]
             == if ts[i].id == draggedId then ts[i].(start := Clamp(EdgeStart(target, edge))) else ts[i]
      {
        MoveTaskAt(ts, draggedId, EdgeStart(target, edge), i);
      }
    }
  }

  /** The drop zones fire on every pointer movement; repeating a hover over
      the same edge of the same target does not move the task any further. */
  lemma HoverRepeatIsStable(ts: seq<Task>, draggedId: int, target: Task, edge: Edge)
    ensures Hover(Hover(ts, draggedId, target, edge), draggedId, target, edge)
         == Hover(ts, draggedId, target, edge)
  {
    if draggedId != target.id {
      MoveTaskIdempotent(ts, draggedId, EdgeStart(target, edge));
    }
  }

  /** Height of one hour, in rem: the blocks use `start * 3` and
      `duration * 3`, and each hour row has Tailwind's `h-12`, which is 3rem. */
  const RemPerHour: int := 3

  /** The `top` style of a block (line 38). */
  function TopOffset(t: Task): int { t.start * RemPerHour }

  /** The `height` style of a block (line 39). */
  function Height(t: Task): int { t.duration * RemPerHour }

  /** The offset of hour row `h` in the grid. */
  function RowTop(h: int): int { h * RemPerHour }

  /** A block covers hour row h completely exactly when h is one of its
      hours, and meets no other row. */
  lemma LayoutCoversItsHours(t: Task, h: int)
    ensures TopOffset(t) <= RowTop(h) && RowTop(h) + RemPerHour <= TopOffset(t) + Height(t)
        <==> t.start <= h < t.start + t.duration
    ensures !(t.start <= h < t.start + t.duration) ==>
              RowTop(h) + RemPerHour <= TopOffset(t) || TopOffset(t) + Height(t) <= RowTop(h)
  {
  }

  /** A block lies inside the 24-row grid exactly when it starts at or after
      hour 0 and ends by hour 24. */
  lemma LayoutWithinGrid(t: Task)
    ensures 0 <= TopOffset(t) && TopOffset(t) + Height(t) <= RowTop(24)
        <==> 0 <= t.start && t.start + t.duration <= 24
  {
  }

  /** After a hover over a top strip whose target starts within [0, 23], the
      dragged block's top lines up with the target's top. */
  lemma HoverTopAligns(ts: seq<Task>, i: int, target: Task)
    requires 0 <= i < |ts| && ts[i].id != target.id
    requires 0 <= target.start <= 23
    ensures TopOffset(Hover(ts, ts[i].id, target, Top)[i]) == TopOffset(target)
  {
    MoveTaskAt(ts, ts[i].id, target.start, i);
  }

  /** After a hover over a bottom strip whose target ends by hour 23, the
      dragged block starts exactly where the target block ends. */
  lemma HoverBottomAbuts(ts: seq<Task>, i: int, target: Task)
    requires 0 <= i < |ts| && ts[i].id != target.id
    requires 0 <= target.start + target.duration <= 23
    ensures TopOffset(Hover(ts, ts[i].id, target, Bottom)[i]) == TopOffset(target) + Height(target)
  {
    MoveTaskAt(ts, ts[i].id, target.start + target.duration, i);
  }

  /** The end of a bottom-strip hover is clamped like any other start: when
      the target ends after hour 23 (for instance at 24), the dragged task
      goes to 23, and its block then begins above the target's bottom edge
      instead of at it. */
  lemma HoverBottomPastLastHour(ts: seq<Task>, i: int, target: Task)
    requires 0 <= i < |ts| && ts[i].id != target.id
    requires target.start + target.duration > 23
    ensures Hover(ts, ts[i].id, target, Bottom)[i].start == 23
    ensures TopOffset(Hover(ts, ts[i].id, target, Bottom)[i]) < TopOffset(target) + Height(target)
  {
    MoveTaskAt(ts, ts[i].id, target.start + target.duration, i);
  }
}
