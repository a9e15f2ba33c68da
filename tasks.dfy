/** The task records of the timeline and the `moveTask` list update
    (src/components/TimelineView.jsx:52-56, 93-101). */
module Tasks {

  /** One block on the timeline. `start` and `duration` are whole hours; the
      source keeps them as JavaScript numbers and only ever stores integers. */
  datatype Task = Task(id: int, name: string, start: int, duration: int, color: string)

  /** The first and last hour a repositioned task may start at. */
  const FirstHour: int := 0
  const LastHour: int := 23

  function Max(a: int, b: int): int { if a < b then b else a }
  function Min(a: int, b: int): int { if a < b then a else b }

  /** `Math.max(0, Math.min(23, newStart))`: the nearest hour in [0, 23]. */
  function Clamp(s: int): (r: int)
    ensures FirstHour <= r <= LastHour
    ensures FirstHour <= s <= LastHour ==> r == s
    ensures s < FirstHour ==> r == FirstHour
    ensures s > LastHour ==> r == LastHour
  {
    Max(FirstHour, Min(LastHour, s))
  }

  /** The ids present in a task list. */
  function Ids(ts: seq<Task>): set<int>
  {
    set t | t in ts :: t.id
  }

  /** No two tasks of the list share an id. */
  predicate UniqueIds(ts: seq<Task>)
  {
    forall i, j :: 0 <= i < j < |ts| ==> ts[i].id != ts[j].id
  }

  /** The callback of the `map` in `moveTask`: the task with the given id gets
      the clamped start, every other task is returned as it is. */
  function Moved(t: Task, id: int, newStart: int): Task
  {
    if t.id == id then t.(start := Clamp(newStart)) else t
  }

  /** `prevTasks.map(...)` of `moveTask`, written as a recursion over the list. */
  function MoveTask(ts: seq<Task>, id: int, newStart: int): (r: seq<Task>)
    ensures |r| == |ts|
  {
    if ts == [] then [] else [Moved(ts[0], id, newStart)] + MoveTask(ts[1..], id, newStart)
  }

  /** The list update, element by element: position i of the result is
      position i of the input, repositioned exactly when its id matches. */
  lemma {:induction false} MoveTaskAt(ts: seq<Task>, id: int, newStart: int, i: int)
    requires 0 <= i < |ts|
    ensures MoveTask(ts, id, newStart)[i]
         == if ts[i].id == id then ts[i].(start := Clamp(newStart)) else ts[i]
  {
    if i > 0 {
      MoveTaskAt(ts[1..], id, newStart, i - 1);
    }
  }

  /** Every task carrying the id ends up at `max(0, min(23, newStart))`,
      so its start lies in [0, 23] whatever integer was asked for. */
  lemma {:induction false} MoveTaskClampsStart(ts: seq<Task>, id: int, newStart: int)
    ensures forall i :: 0 <= i < |ts| && ts[i].id == id ==>
              MoveTask(ts, id, newStart)[i].start == Max(0, Min(23, newStart))
    ensures forall i :: 0 <= i < |ts| && ts[i].id == id ==>
              0 <= MoveTask(ts, id, newStart)[i].start <= 23
  {
    forall i | 0 <= i < |ts| && ts[i].id == id
      ensures MoveTask(ts, id, newStart)[i].start == Max(0, Min(23, newStart))
    {
      MoveTaskAt(ts, id, newStart, i);
    }
  }

  /** Repositioning keeps the order and length of the list, never touches the
      id, name, duration or colour of any task, and leaves tasks with other
      ids exactly as they were. */
  lemma {:induction false} MoveTaskKeepsOtherFields(ts: seq<Task>, id: int, newStart: int)
    ensures |MoveTask(ts, id, newStart)| == |ts|
    ensures forall i :: 0 <= i < |ts| ==>
              var r := MoveTask(ts, id, newStart)[i];
              r.id == ts[i].id && r.name == ts[i].name &&
              r.duration == ts[i].duration && r.color == ts[i].color
    ensures forall i :: 0 <= i < |ts| && ts[i].id != id ==> MoveTask(ts, id, newStart)[i] == ts[i]
  {
    forall i | 0 <= i < |ts|
      ensures MoveTask(ts, id, newStart)[i]
           == if ts[i].id == id then ts[i].(start := Clamp(newStart)) else ts[i]
    {
      MoveTaskAt(ts, id, newStart, i);
    }
  }

  /** An id that is not in the list leaves the list unchanged. */
  lemma {:induction false} MoveTaskAbsent(ts: seq<Task>, id: int, newStart: int)
    requires id !in Ids(ts)
    ensures MoveTask(ts, id, newStart) == ts
  {
    if ts != [] {
      assert ts[0] in ts;
      assert Ids(ts[1..]) <= Ids(ts) by {
        forall t | t in ts[1..] ensures t in ts { }
      }
      MoveTaskAbsent(ts[1..], id, newStart);
    }
  }

  /** Repositioning never adds, drops or renames an id, so a list with unique
      ids keeps them unique. */
  lemma MoveTaskKeepsIds(ts: seq<Task>, id: int, newStart: int)
    ensures Ids(MoveTask(ts, id, newStart)) == Ids(ts)
    ensures UniqueIds(ts) ==> UniqueIds(MoveTask(ts, id, newStart))
  {
    var r := MoveTask(ts, id, newStart);
    MoveTaskKeepsOtherFields(ts, id, newStart);
    forall x | x in Ids(r) ensures x in Ids(ts) {
      var k :| 0 <= k < |r| && r[k].id == x;
      assert ts[k] in ts;
    }
    forall x | x in Ids(ts) ensures x in Ids(r) {
      var k :| 0 <= k < |ts| && ts[k].id == x;
      assert r[k] in r;
    }
  }

  /** A second move of the same task overrides the first: only the latest
      requested start matters. */
  lemma {:induction false} MoveTaskLastWins(ts: seq<Task>, id: int, a: int, b: int)
    ensures MoveTask(MoveTask(ts, id, a), id, b) == MoveTask(ts, id, b)
  {
    if ts != [] {
      MoveTaskLastWins(ts[1..], id, a, b);
      assert MoveTask(ts, id, a)[1..] == MoveTask(ts[1..], id, a);
    }
  }

  /** Repeating the same move changes nothing more. */
  lemma {:induction false} MoveTaskIdempotent(ts: seq<Task>, id: int, newStart: int)
    ensures MoveTask(MoveTask(ts, id, newStart), id, newStart) == MoveTask(ts, id, newStart)
  {
    MoveTaskLastWins(ts, id, newStart, newStart);
  }

  /** Moves of two different tasks do not interfere: their order is irrelevant. */
  lemma {:induction false} MoveTaskCommutes(ts: seq<Task>, id1: int, s1: int, id2: int, s2: int)
    requires id1 != id2
    ensures MoveTask(MoveTask(ts, id1, s1), id2, s2) == MoveTask(MoveTask(ts, id2, s2), id1, s1)
  {
    if ts != [] {
      MoveTaskCommutes(ts[1..], id1, s1, id2, s2);
      assert MoveTask(ts, id1, s1)[1..] == MoveTask(ts[1..], id1, s1);
      assert MoveTask(ts, id2, s2)[1..] == MoveTask(ts[1..], id2, s2);
    }
  }
}
