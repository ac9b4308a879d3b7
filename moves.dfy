/** `moveTask` (src/contexts/BoardContext.tsx:298-361) as a function of the
    boards, and the status rule it applies (lines 339-345). */
module Moves {
  import opened Wrappers
  import opened Types
  import opened Seqs
  import opened Text
  import opened Boards

  /** The status of a task dropped into a list titled `title`: the lower-cased
      title is searched for "done", then "progress", then "review". */
  function StatusForTitle(title: string): Status {
    var t := ToLowerAscii(title);
    if Includes(t, "done") then Done
    else if Includes(t, "progress") then InProgress
    else if Includes(t, "review") then Review
    else Todo
  }

  /** The precedence of the rule, stated over occurrences in the lower-cased title. */
  lemma StatusForTitleSpec(title: string)
    ensures var t := ToLowerAscii(title);
      && (StatusForTitle(title) == Done <==> Occurs(t, "done"))
      && (StatusForTitle(title) == InProgress <==> !Occurs(t, "done") && Occurs(t, "progress"))
      && (StatusForTitle(title) == Review <==> !Occurs(t, "done") && !Occurs(t, "progress") && Occurs(t, "review"))
      && (StatusForTitle(title) == Todo <==> !Occurs(t, "done") && !Occurs(t, "progress") && !Occurs(t, "review"))
  {
    var t := ToLowerAscii(title);
    IncludesSpec(t, "done");
    IncludesSpec(t, "progress");
    IncludesSpec(t, "review");
  }

  /** The rule does not see letter case. */
  lemma StatusIgnoresCase(title: string)
    ensures StatusForTitle(ToLowerAscii(title)) == StatusForTitle(title)
  {
    ToLowerIdempotent(title);
  }

  /** The three default lists of a new board map to the matching statuses. */
  lemma ToDoListStatus()
    ensures StatusForTitle("To Do") == Todo
  {
    LowersTo("To Do", "to do");
    ToDoLowered("To Do", "to do");
  }

  /** A title lowering to "to do" gives Todo: "to do" has no 'n', 'p' or 'r'.
      The sample lemmas reason through parameters equated with the literal
      (`requires t == "..."`) rather than through the literal itself: the
      verifier evaluates functions applied to literals eagerly, which makes the
      direct statement far more expensive to check. */
  lemma ToDoLowered(title: string, t: string)
    requires ToLowerAscii(title) == t && t == "to do"
    ensures StatusForTitle(title) == Todo
  {
    MissingCharNotIncluded(t, "done", 2);
    MissingCharNotIncluded(t, "progress", 0);
    MissingCharNotIncluded(t, "review", 0);
  }

  lemma InProgressListStatus()
    ensures StatusForTitle("In Progress") == InProgress
  {
    LowersTo("In Progress", "in progress");
    InProgressLowered("In Progress", "in progress");
  }

  /** A title lowering to "in progress" gives InProgress (literal passed as a
      parameter, as for `ToDoLowered`). */
  lemma InProgressLowered(title: string, t: string)
    requires ToLowerAscii(title) == t && t == "in progress"
    ensures StatusForTitle(title) == InProgress
  {
    NoDoneInProgress(t);
    ProgressInProgress(t);
  }

  /** "in progress" has no 'd', so it does not contain "done". */
  lemma NoDoneInProgress(t: string)
    requires t == "in progress"
    ensures !Includes(t, "done")
  {
    MissingCharNotIncluded(t, "done", 0);
  }

  /** "in progress" ends with "progress". */
  lemma ProgressInProgress(t: string)
    requires t == "in progress"
    ensures Includes(t, "progress")
  {
    assert t == "in " + "progress";
    IncludesAtEnd("in ", "progress");
  }

  lemma DoneListStatus()
    ensures StatusForTitle("Done") == Done
  {
    assert ToLowerAscii("Done") == "done";
    assert Includes("done", "done");
  }

  /** The moved copy: `{ ...task, updatedAt: now, status: <rule on title> }`.
      `moveTask` reads the clock again for the board's own `updatedAt`, so
      `MoveTask` takes two stamps: `taskNow` for the copy, `now` for the board. */
  function Restamp(task: Task, title: string, now: string): Task {
    task.(updatedAt := Some(now), status := StatusForTitle(title))
  }

  function BoardIndex(boards: seq<Board>, id: string): int { FindIndex(boards, BoardIdIs(id)) }
  function ListIndex(lists: seq<List>, id: string): int { FindIndex(lists, ListIdIs(id)) }
  function TaskIndex(tasks: seq<Task>, id: string): int { FindIndex(tasks, TaskIdIs(id)) }

  /** The first board carrying `boardId` has a first list carrying `fromListId`,
      and that list holds a task carrying `taskId`: the three early exits of
      `moveTask` are all passed. */
  predicate Located(boards: seq<Board>, boardId: string, fromListId: string, taskId: string) {
    var bi := BoardIndex(boards, boardId);
    bi != -1 &&
    var fi := ListIndex(boards[bi].lists, fromListId);
    fi != -1 && TaskIndex(boards[bi].lists[fi].tasks, taskId) != -1
  }

  function MoveTask(boards: seq<Board>, boardId: string, fromListId: string, toListId: string,
                    taskId: string, taskNow: string, now: string): seq<Board>
  {
    var bi := BoardIndex(boards, boardId);
    if bi == -1 then boards else
    var board := boards[bi];
    var fi := ListIndex(board.lists, fromListId);
    if fi == -1 then boards else
    var fromList := board.lists[fi];
    var ti := TaskIndex(fromList.tasks, taskId);
    if ti == -1 then boards else
    var task := fromList.tasks[ti];
    var removed := board.lists[fi := fromList.(tasks := RemoveTask(fromList.tasks, taskId))];
    // the destination is looked up, and read, in the lists from before the removal
    var toIdx := ListIndex(board.lists, toListId);
    var newLists :=
      if toIdx == -1 then removed
      else
        var toList := board.lists[toIdx];
        removed[toIdx := toList.(tasks := toList.tasks + [Restamp(task, toList.title, taskNow)])];
    boards[bi := board.(lists := newLists, updatedAt := Some(now))]
  }

  /** A missing board, source list or task leaves the boards exactly as they were. */
  lemma MoveTaskNotLocated(boards: seq<Board>, boardId: string, fromListId: string, toListId: string,
                           taskId: string, taskNow: string, now: string)
    requires !Located(boards, boardId, fromListId, taskId)
    ensures MoveTask(boards, boardId, fromListId, toListId, taskId, taskNow, now) == boards
  {
  }

  /** A located move changes only the located board: it keeps its header and the
      ids and titles of all its lists, and is stamped with `now`. */
  lemma MoveTaskScope(boards: seq<Board>, boardId: string, fromListId: string, toListId: string,
                      taskId: string, taskNow: string, now: string)
    requires Located(boards, boardId, fromListId, taskId)
    ensures var r := MoveTask(boards, boardId, fromListId, toListId, taskId, taskNow, now);
      var bi := BoardIndex(boards, boardId);
      && |r| == |boards|
      && (forall i :: 0 <= i < |boards| && i != bi ==> r[i] == boards[i])
      && SameHeader(r[bi], boards[bi]) && r[bi].updatedAt == Some(now)
      && |r[bi].lists| == |boards[bi].lists|
      && forall j :: 0 <= j < |boards[bi].lists| ==>
           r[bi].lists[j].id == boards[bi].lists[j].id && r[bi].lists[j].title == boards[bi].lists[j].title
  {
    var bi := BoardIndex(boards, boardId);
    var board := boards[bi];
    var fi := ListIndex(board.lists, fromListId);
    var fromList := board.lists[fi];
    var task := fromList.tasks[TaskIndex(fromList.tasks, taskId)];
    var removed := board.lists[fi := fromList.(tasks := RemoveTask(fromList.tasks, taskId))];
    var toIdx := ListIndex(board.lists, toListId);
    var newLists :=
      if toIdx == -1 then removed
      else removed[toIdx := board.lists[toIdx].(tasks := board.lists[toIdx].tasks + [Restamp(task, board.lists[toIdx].title, taskNow)])];
    assert MoveTask(boards, boardId, fromListId, toListId, taskId, taskNow, now)
      == boards[bi := board.(lists := newLists, updatedAt := Some(now))];
    assert forall j :: 0 <= j < |board.lists| ==>
      newLists[j].id == board.lists[j].id && newLists[j].title == board.lists[j].title;
  }

  /** Between two distinct lists: the task leaves the source (the other source
      tasks keep their order), one re-stamped copy with the destination's status
      goes last in the destination, and every other list is untouched. */
  lemma MoveTaskBetweenLists(boards: seq<Board>, boardId: string, fromListId: string, toListId: string,
                             taskId: string, taskNow: string, now: string)
    requires Located(boards, boardId, fromListId, taskId)
    requires fromListId != toListId
    requires ListIndex(boards[BoardIndex(boards, boardId)].lists, toListId) != -1
    ensures var r := MoveTask(boards, boardId, fromListId, toListId, taskId, taskNow, now);
      var bi := BoardIndex(boards, boardId);
      var lists := boards[bi].lists;
      var fi, ti := ListIndex(lists, fromListId), ListIndex(lists, toListId);
      var task := lists[fi].tasks[TaskIndex(lists[fi].tasks, taskId)];
      var moved := r[bi].lists[ti].tasks[|lists[ti].tasks|];
      && fi != ti
      && r[bi].lists[fi].tasks == RemoveTask(lists[fi].tasks, taskId)
      && (forall t :: t in r[bi].lists[fi].tasks ==> t.id != taskId)
      && r[bi].lists[ti].tasks == lists[ti].tasks + [moved]
      && moved == task.(updatedAt := Some(taskNow), status := StatusForTitle(lists[ti].title))
      && moved.id == taskId
      && CountId(r[bi].lists[ti].tasks, taskId) == CountId(lists[ti].tasks, taskId) + 1
      && forall j :: 0 <= j < |lists| && j != fi && j != ti ==> r[bi].lists[j] == lists[j]
  {
    var bi := BoardIndex(boards, boardId);
    var lists := boards[bi].lists;
    var fi, ti := ListIndex(lists, fromListId), ListIndex(lists, toListId);
    var task := lists[fi].tasks[TaskIndex(lists[fi].tasks, taskId)];
    var moved := Restamp(task, lists[ti].title, taskNow);
    RemoveTaskSpec(lists[fi].tasks, taskId);
    CountIdAppend(lists[ti].tasks, moved);
  }

  /** With a unique task id in the source, a move between distinct lists keeps
      the board's task total. */
  lemma MoveTaskPreservesTotal(boards: seq<Board>, boardId: string, fromListId: string, toListId: string,
                               taskId: string, taskNow: string, now: string)
    requires Located(boards, boardId, fromListId, taskId)
    requires fromListId != toListId
    requires ListIndex(boards[BoardIndex(boards, boardId)].lists, toListId) != -1
    requires var lists := boards[BoardIndex(boards, boardId)].lists;
      CountId(lists[ListIndex(lists, fromListId)].tasks, taskId) == 1
    ensures var bi := BoardIndex(boards, boardId);
      TaskTotal(MoveTask(boards, boardId, fromListId, toListId, taskId, taskNow, now)[bi]) == TaskTotal(boards[bi])
  {
    var bi := BoardIndex(boards, boardId);
    var board := boards[bi];
    var lists := board.lists;
    var fi, ti := ListIndex(lists, fromListId), ListIndex(lists, toListId);
    var fromList := lists[fi];
    var task := fromList.tasks[TaskIndex(fromList.tasks, taskId)];
    var removed := lists[fi := fromList.(tasks := RemoveTask(fromList.tasks, taskId))];
    var toList := lists[ti];
    var added := toList.(tasks := toList.tasks + [Restamp(task, toList.title, taskNow)]);
    RemoveTaskLength(fromList.tasks, taskId);
    ListsTotalUpdate(lists, fi, removed[fi]);
    assert removed[ti] == toList;
    ListsTotalUpdate(removed, ti, added);
  }

  /** As written: with no list carrying `toListId` the task is removed from the
      source and added nowhere, so the total falls by one for a unique id. */
  lemma MoveTaskDropsWithoutDestination(boards: seq<Board>, boardId: string, fromListId: string,
                                        toListId: string, taskId: string, taskNow: string, now: string)
    requires Located(boards, boardId, fromListId, taskId)
    requires ListIndex(boards[BoardIndex(boards, boardId)].lists, toListId) == -1
    ensures var r := MoveTask(boards, boardId, fromListId, toListId, taskId, taskNow, now);
      var bi := BoardIndex(boards, boardId);
      var lists := boards[bi].lists;
      var fi := ListIndex(lists, fromListId);
      && r[bi].lists == lists[fi := lists[fi].(tasks := RemoveTask(lists[fi].tasks, taskId))]
      && TaskTotal(r[bi]) + CountId(lists[fi].tasks, taskId) == TaskTotal(boards[bi])
  {
    var bi := BoardIndex(boards, boardId);
    var lists := boards[bi].lists;
    var fi := ListIndex(lists, fromListId);
    RemoveTaskLength(lists[fi].tasks, taskId);
    ListsTotalUpdate(lists, fi, lists[fi].(tasks := RemoveTask(lists[fi].tasks, taskId)));
  }

  /** As written: a move within one list reads the destination from the lists
      before the removal, so the list ends as its original tasks followed by the
      re-stamped task, which then appears once more than before. */
  lemma MoveTaskWithinList(boards: seq<Board>, boardId: string, listId: string, taskId: string, taskNow: string, now: string)
    requires Located(boards, boardId, listId, taskId)
    ensures var r := MoveTask(boards, boardId, listId, listId, taskId, taskNow, now);
      var bi := BoardIndex(boards, boardId);
      var lists := boards[bi].lists;
      var fi := ListIndex(lists, listId);
      var task := lists[fi].tasks[TaskIndex(lists[fi].tasks, taskId)];
      && r[bi].lists == lists[fi := lists[fi].(tasks := lists[fi].tasks + [Restamp(task, lists[fi].title, taskNow)])]
      && CountId(r[bi].lists[fi].tasks, taskId) == CountId(lists[fi].tasks, taskId) + 1
      && CountId(r[bi].lists[fi].tasks, taskId) >= 2
  {
    var bi := BoardIndex(boards, boardId);
    var lists := boards[bi].lists;
    var fi := ListIndex(lists, listId);
    var ts := lists[fi].tasks;
    var ti := TaskIndex(ts, taskId);
    var task := ts[ti];
    var added := lists[fi].(tasks := ts + [Restamp(task, lists[fi].title, taskNow)]);
    var removed := lists[fi := lists[fi].(tasks := RemoveTask(ts, taskId))];
    assert removed[fi := added] == lists[fi := added];
    CountIdAppend(ts, Restamp(task, lists[fi].title, taskNow));
    CountIdPositive(ts, ti);
  }
}
