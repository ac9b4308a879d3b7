/** The id-addressed edits of `BoardProvider` (src/contexts/BoardContext.tsx)
    over the aggregate board -> lists -> tasks, each a pure function from the
    current `boards` to the next. Fresh ids (`uuidv4()`) and the timestamp
    (`new Date().toISOString()`) are parameters. */
module Boards {
  import opened Wrappers
  import opened Types
  import opened Seqs
  import GitHub

  /** `Partial<Board>`: `None` leaves a field alone; for an optional field,
      `Some(None)` writes `undefined`. */
  datatype BoardPatch = BoardPatch(
    id: Option<string>,
    title: Option<string>,
    description: Option<Option<string>>,
    lists: Option<seq<List>>,
    createdBy: Option<string>,
    createdAt: Option<string>,
    updatedAt: Option<Option<string>>,
    githubRepo: Option<Option<string>>)

  /** `Partial<Task>`, read the same way as `BoardPatch`. */
  datatype TaskPatch = TaskPatch(
    id: Option<string>,
    title: Option<string>,
    description: Option<Option<string>>,
    dueDate: Option<Option<string>>,
    priority: Option<Priority>,
    status: Option<Status>,
    createdBy: Option<string>,
    createdAt: Option<string>,
    updatedAt: Option<Option<string>>)

  /** `Omit<Task, 'id' | 'createdAt' | 'createdBy'>`: what the caller of `createTask` supplies. */
  datatype TaskDraft = TaskDraft(
    title: string,
    description: Option<string>,
    dueDate: Option<string>,
    priority: Priority,
    status: Status,
    updatedAt: Option<string>)

  // ---------------------------------------------------------------- selectors

  function BoardIdIs(id: string): Board -> bool { (b: Board) => b.id == id }
  function BoardIdIsNot(id: string): Board -> bool { (b: Board) => b.id != id }
  function ListIdIs(id: string): List -> bool { (l: List) => l.id == id }
  function ListIdIsNot(id: string): List -> bool { (l: List) => l.id != id }
  function TaskIdIs(id: string): Task -> bool { (t: Task) => t.id == id }
  function TaskIdIsNot(id: string): Task -> bool { (t: Task) => t.id != id }

  predicate HasBoard(boards: seq<Board>, id: string) {
    exists i :: 0 <= i < |boards| && boards[i].id == id
  }

  /** Only boards carrying `id` may differ between `before` and `after`. */
  ghost predicate OnlyBoardChanged(before: seq<Board>, after: seq<Board>, id: string) {
    |after| == |before| && forall i :: 0 <= i < |before| && before[i].id != id ==> after[i] == before[i]
  }

  /** Every field of a board except its lists and its `updatedAt` agrees. */
  predicate SameHeader(a: Board, b: Board) {
    a.id == b.id && a.title == b.title && a.description == b.description
    && a.createdBy == b.createdBy && a.createdAt == b.createdAt && a.githubRepo == b.githubRepo
  }

  // ---------------------------------------------------------------- task totals

  /** `board.lists.reduce((count, list) => count + list.tasks.length, 0)`,
      the per-board total the board overview shows. */
  function ListsTotal(lists: seq<List>): nat {
    if |lists| == 0 then 0 else |lists[0].tasks| + ListsTotal(lists[1..])
  }

  ghost function TaskTotal(b: Board): nat { ListsTotal(b.lists) }

  lemma {:induction false} ListsTotalAppend(a: seq<List>, b: seq<List>)
    ensures ListsTotal(a + b) == ListsTotal(a) + ListsTotal(b)
  {
    if |a| == 0 {
      assert a + b == b;
    } else {
      assert (a + b)[0] == a[0];
      assert (a + b)[1..] == a[1..] + b;
      ListsTotalAppend(a[1..], b);
    }
  }

  /** Replacing one list changes the total by the difference in its length. */
  lemma ListsTotalUpdate(lists: seq<List>, i: int, l: List)
    requires 0 <= i < |lists|
    ensures ListsTotal(lists[i := l]) + |lists[i].tasks| == ListsTotal(lists) + |l.tasks|
  {
    assert lists == lists[..i] + [lists[i]] + lists[i + 1..];
    assert lists[i := l] == lists[..i] + [l] + lists[i + 1..];
    ListsTotalAppend(lists[..i] + [lists[i]], lists[i + 1..]);
    ListsTotalAppend(lists[..i], [lists[i]]);
    ListsTotalAppend(lists[..i] + [l], lists[i + 1..]);
    ListsTotalAppend(lists[..i], [l]);
  }

  /** Lists of pointwise equal lengths have equal totals. */
  lemma {:induction false} ListsTotalPointwise(a: seq<List>, b: seq<List>)
    requires |a| == |b|
    requires forall i :: 0 <= i < |a| ==> |a[i].tasks| == |b[i].tasks|
    ensures ListsTotal(a) == ListsTotal(b)
  {
    if |a| != 0 {
      ListsTotalPointwise(a[1..], b[1..]);
    }
  }

  /** Removing lists never raises the total. */
  lemma {:induction false} ListsTotalFilter(lists: seq<List>, keep: List -> bool)
    ensures ListsTotal(Filter(lists, keep)) <= ListsTotal(lists)
  {
    if |lists| != 0 {
      ListsTotalFilter(lists[1..], keep);
      var head := if keep(lists[0]) then [lists[0]] else [];
      ListsTotalAppend(head, Filter(lists[1..], keep));
    }
  }

  // ---------------------------------------------------------------- task id bookkeeping

  /** How many tasks of `tasks` carry `id`. */
  function CountId(tasks: seq<Task>, id: string): nat {
    |Filter(tasks, TaskIdIs(id))|
  }

  /** `tasks.filter((t) => t.id !== id)`. */
  function RemoveTask(tasks: seq<Task>, id: string): seq<Task> {
    Filter(tasks, TaskIdIsNot(id))
  }

  /** Removing an id distributes over concatenation, so the surviving tasks keep
      their order. */
  lemma RemoveTaskKeepsOrder(a: seq<Task>, b: seq<Task>, id: string)
    ensures RemoveTask(a + b, id) == RemoveTask(a, id) + RemoveTask(b, id)
  {
    FilterAppend(a, b, TaskIdIsNot(id));
  }

  /** Removing an id removes exactly the tasks that carry it. */
  lemma {:induction false} RemoveTaskLength(tasks: seq<Task>, id: string)
    ensures |RemoveTask(tasks, id)| + CountId(tasks, id) == |tasks|
  {
    if |tasks| != 0 {
      RemoveTaskLength(tasks[1..], id);
    }
  }

  /** Appending a task adds one to the count of its id. */
  lemma CountIdAppend(tasks: seq<Task>, t: Task)
    ensures CountId(tasks + [t], t.id) == CountId(tasks, t.id) + 1
  {
    FilterAppend(tasks, [t], TaskIdIs(t.id));
  }

  /** An id some task carries has a positive count. */
  lemma CountIdPositive(tasks: seq<Task>, k: int)
    requires 0 <= k < |tasks|
    ensures CountId(tasks, tasks[k].id) >= 1
  {
    FilterMembers(tasks, TaskIdIs(tasks[k].id), tasks[k]);
  }

  /** No task carrying `id` survives, and every other task does, in order. */
  lemma RemoveTaskSpec(tasks: seq<Task>, id: string)
    ensures forall t :: t in RemoveTask(tasks, id) <==> t in tasks && t.id != id
    ensures (forall k :: 0 <= k < |tasks| ==> tasks[k].id != id) ==> RemoveTask(tasks, id) == tasks
  {
    forall t ensures t in RemoveTask(tasks, id) <==> t in tasks && t.id != id {
      FilterMembers(tasks, TaskIdIsNot(id), t);
    }
  }

  /** Appending a task with `id` and then removing `id` gives back a sequence in
      which `id` did not occur. */
  lemma RemoveAppended(tasks: seq<Task>, t: Task)
    requires forall k :: 0 <= k < |tasks| ==> tasks[k].id != t.id
    ensures RemoveTask(tasks + [t], t.id) == tasks
  {
    FilterAppend(tasks, [t], TaskIdIsNot(t.id));
    assert Filter([t], TaskIdIsNot(t.id)) == [];
  }

  // ---------------------------------------------------------------- merges

  /** `{ ...board, ...data, updatedAt: now }`: the patch may even overwrite `id`,
      while its `updatedAt` is always superseded. */
  function MergeBoard(b: Board, p: BoardPatch, now: string): Board {
    Board(p.id.GetOr(b.id), p.title.GetOr(b.title), p.description.GetOr(b.description),
          p.lists.GetOr(b.lists), p.createdBy.GetOr(b.createdBy), p.createdAt.GetOr(b.createdAt),
          Some(now), p.githubRepo.GetOr(b.githubRepo))
  }

  /** `{ ...task, ...taskData, updatedAt: now }`. */
  function MergeTask(t: Task, p: TaskPatch, now: string): Task {
    Task(p.id.GetOr(t.id), p.title.GetOr(t.title), p.description.GetOr(t.description),
         p.dueDate.GetOr(t.dueDate), p.priority.GetOr(t.priority), p.status.GetOr(t.status),
         p.createdBy.GetOr(t.createdBy), p.createdAt.GetOr(t.createdAt), Some(now))
  }

  const EmptyBoardPatch := BoardPatch(None, None, None, None, None, None, None, None)
  const EmptyTaskPatch := TaskPatch(None, None, None, None, None, None, None, None, None)

  /** The field after a merge: the patch's value where it sets one, the old value where it does not. */
  predicate Patched<T(==)>(field: Option<T>, before: T, after: T) {
    (field.Some? ==> after == field.value) && (field.None? ==> after == before)
  }

  /** A merge keeps every field the patch leaves out, takes every field it sets,
      and always stamps `now`. */
  lemma MergeBoardSpec(b: Board, p: BoardPatch, now: string)
    ensures var r := MergeBoard(b, p, now);
      && Patched(p.id, b.id, r.id) && Patched(p.title, b.title, r.title)
      && Patched(p.description, b.description, r.description) && Patched(p.lists, b.lists, r.lists)
      && Patched(p.createdBy, b.createdBy, r.createdBy) && Patched(p.createdAt, b.createdAt, r.createdAt)
      && Patched(p.githubRepo, b.githubRepo, r.githubRepo)
      && r.updatedAt == Some(now)
  {
  }

  /** The empty patch only stamps; merging a patch twice is merging it once. */
  lemma MergeBoardIdempotent(b: Board, p: BoardPatch, now: string)
    ensures MergeBoard(b, EmptyBoardPatch, now) == b.(updatedAt := Some(now))
    ensures MergeBoard(MergeBoard(b, p, now), p, now) == MergeBoard(b, p, now)
  {
  }

  /** As for boards; the patch's own `updatedAt` is superseded by `now`. */
  lemma MergeTaskSpec(t: Task, p: TaskPatch, now: string)
    ensures var r := MergeTask(t, p, now);
      && Patched(p.id, t.id, r.id) && Patched(p.title, t.title, r.title)
      && Patched(p.description, t.description, r.description) && Patched(p.dueDate, t.dueDate, r.dueDate)
      && Patched(p.priority, t.priority, r.priority) && Patched(p.status, t.status, r.status)
      && Patched(p.createdBy, t.createdBy, r.createdBy) && Patched(p.createdAt, t.createdAt, r.createdAt)
      && r.updatedAt == Some(now)
  {
  }

  /** The empty patch only stamps; merging a patch twice is merging it once. */
  lemma MergeTaskIdempotent(t: Task, p: TaskPatch, now: string)
    ensures MergeTask(t, EmptyTaskPatch, now) == t.(updatedAt := Some(now))
    ensures MergeTask(MergeTask(t, p, now), p, now) == MergeTask(t, p, now)
  {
  }

  // ---------------------------------------------------------------- board-level edits

  /** `boards.find((board) => board.id === currentBoardId) || null`. */
  function FindBoard(boards: seq<Board>, currentId: Option<string>): (r: Option<Board>)
    ensures r.Some? ==> r.value in boards && currentId == Some(r.value.id)
    ensures r.Some? ==> r.value == boards[FindIndex(boards, BoardIdIs(currentId.value))]
    ensures r.None? <==> currentId.None? || !HasBoard(boards, currentId.value)
  {
    match currentId
    case None => None
    case Some(id) =>
      var k := FindIndex(boards, BoardIdIs(id));
      if k == -1 then None else Some(boards[k])
  }

  /** The board `createBoard` builds, with its three default lists. */
  function NewBoard(id: string, todoId: string, progressId: string, doneId: string,
                    title: string, description: Option<string>, userId: string, now: string): Board
  {
    Board(id, title, description,
          [List(todoId, "To Do", []), List(progressId, "In Progress", []), List(doneId, "Done", [])],
          userId, now, None, None)
  }

  lemma NewBoardSpec(id: string, todoId: string, progressId: string, doneId: string,
                     title: string, description: Option<string>, userId: string, now: string)
    ensures var b := NewBoard(id, todoId, progressId, doneId, title, description, userId, now);
      && b.id == id && b.title == title && b.description == description
      && b.createdBy == userId && b.createdAt == now && b.updatedAt.None? && b.githubRepo.None?
      && |b.lists| == 3
      && b.lists[0].id == todoId && b.lists[1].id == progressId && b.lists[2].id == doneId
      && b.lists[0].title == "To Do" && b.lists[1].title == "In Progress" && b.lists[2].title == "Done"
      && (forall j :: 0 <= j < 3 ==> b.lists[j].tasks == [])
      && TaskTotal(b) == 0
  {
    var b := NewBoard(id, todoId, progressId, doneId, title, description, userId, now);
    assert ListsTotal(b.lists[1..][1..]) == 0;
    assert ListsTotal(b.lists[1..]) == 0;
  }

  /** Creating a board with a fresh id and making it current puts it, and
      nothing else, behind the current-board lookup. */
  lemma CreatedBoardIsCurrent(boards: seq<Board>, b: Board)
    requires !HasBoard(boards, b.id)
    ensures FindBoard(boards + [b], Some(b.id)) == Some(b)
    ensures (boards + [b])[..|boards|] == boards
  {
    var s := boards + [b];
    var k := FindIndex(s, BoardIdIs(b.id));
    assert BoardIdIs(b.id)(s[|boards|]);
    assert forall j :: 0 <= j < |boards| ==> s[j] == boards[j];
  }

  function UpdateBoard(boards: seq<Board>, boardId: string, patch: BoardPatch, now: string): seq<Board> {
    MapWhere(boards, BoardIdIs(boardId), (b: Board) => MergeBoard(b, patch, now))
  }

  lemma UpdateBoardSpec(boards: seq<Board>, boardId: string, patch: BoardPatch, now: string)
    ensures var r := UpdateBoard(boards, boardId, patch, now);
      && OnlyBoardChanged(boards, r, boardId)
      && (!HasBoard(boards, boardId) ==> r == boards)
      && forall i :: 0 <= i < |boards| && boards[i].id == boardId ==>
           r[i] == MergeBoard(boards[i], patch, now) && r[i].updatedAt == Some(now)
  {
  }

  /** `boards.filter((board) => board.id !== boardId)`. */
  function DeleteBoard(boards: seq<Board>, boardId: string): seq<Board> {
    Filter(boards, BoardIdIsNot(boardId))
  }

  /** The current board id after `deleteBoard`: when it was the deleted board,
      `boards.find(board => board.id !== boardId)?.id || null` (an empty id is
      falsy and also gives null); otherwise unchanged. */
  function CurrentAfterDelete(boards: seq<Board>, currentId: Option<string>, boardId: string): Option<string> {
    if currentId == Some(boardId) then
      var k := FindIndex(boards, BoardIdIsNot(boardId));
      if k == -1 || boards[k].id == "" then None else Some(boards[k].id)
    else currentId
  }

  /** The first element a filter keeps is the first element satisfying it. */
  lemma {:induction false} FilterHead<T>(s: seq<T>, keep: T -> bool)
    ensures var k := FindIndex(s, keep);
      (k == -1 <==> Filter(s, keep) == []) && (k != -1 ==> Filter(s, keep)[0] == s[k])
  {
    if |s| != 0 && !keep(s[0]) {
      FilterHead(s[1..], keep);
    }
  }

  /** `deleteBoard` removes exactly the boards carrying the id, keeps the others in
      order, and moves the current board to the first survivor only when the
      current board was the one deleted. */
  lemma DeleteBoardSpec(boards: seq<Board>, currentId: Option<string>, boardId: string)
    ensures var r := DeleteBoard(boards, boardId);
      && (forall b :: b in r <==> b in boards && b.id != boardId)
      && (!HasBoard(boards, boardId) ==> r == boards)
      && (currentId != Some(boardId) ==> CurrentAfterDelete(boards, currentId, boardId) == currentId)
      && (currentId == Some(boardId) ==>
            CurrentAfterDelete(boards, currentId, boardId)
              == if r == [] || r[0].id == "" then None else Some(r[0].id))
  {
    forall b ensures b in DeleteBoard(boards, boardId) <==> b in boards && b.id != boardId {
      FilterMembers(boards, BoardIdIsNot(boardId), b);
    }
    FilterHead(boards, BoardIdIsNot(boardId));
  }

  /** Deletion distributes over concatenation, so the survivors keep their order. */
  lemma DeleteBoardKeepsOrder(a: seq<Board>, b: seq<Board>, boardId: string)
    ensures DeleteBoard(a + b, boardId) == DeleteBoard(a, boardId) + DeleteBoard(b, boardId)
  {
    FilterAppend(a, b, BoardIdIsNot(boardId));
  }

  // ---------------------------------------------------------------- list-level edits

  function CreateList(boards: seq<Board>, boardId: string, listId: string, title: string, now: string): seq<Board> {
    MapWhere(boards, BoardIdIs(boardId),
      (b: Board) => b.(lists := b.lists + [List(listId, title, [])], updatedAt := Some(now)))
  }

  /** The new empty list goes last on the addressed board; its other lists,
      its header fields and its task total are untouched. */
  lemma CreateListSpec(boards: seq<Board>, boardId: string, listId: string, title: string, now: string)
    ensures var r := CreateList(boards, boardId, listId, title, now);
      && OnlyBoardChanged(boards, r, boardId)
      && (!HasBoard(boards, boardId) ==> r == boards)
      && forall i :: 0 <= i < |boards| && boards[i].id == boardId ==>
           && SameHeader(r[i], boards[i]) && r[i].updatedAt == Some(now)
           && |r[i].lists| == |boards[i].lists| + 1
           && r[i].lists[..|boards[i].lists|] == boards[i].lists
           && r[i].lists[|boards[i].lists|] == List(listId, title, [])
           && TaskTotal(r[i]) == TaskTotal(boards[i])
  {
    var r := CreateList(boards, boardId, listId, title, now);
    forall i | 0 <= i < |boards| && boards[i].id == boardId
      ensures TaskTotal(r[i]) == TaskTotal(boards[i])
    {
      ListsTotalAppend(boards[i].lists, [List(listId, title, [])]);
    }
  }

  /** `board.lists.map((list) => list.id === listId ? { ...list, title } : list)`. */
  function RenameList(lists: seq<List>, listId: string, title: string): seq<List> {
    MapWhere(lists, ListIdIs(listId), (l: List) => l.(title := title))
  }

  function UpdateList(boards: seq<Board>, boardId: string, listId: string, title: string, now: string): seq<Board> {
    MapWhere(boards, BoardIdIs(boardId),
      (b: Board) => b.(lists := RenameList(b.lists, listId, title), updatedAt := Some(now)))
  }

  /** Renaming retitles the addressed lists only; every list keeps its id, its
      position and its tasks, so the board's task total is unchanged. The board is
      stamped even when no list carries `listId`. */
  lemma UpdateListSpec(boards: seq<Board>, boardId: string, listId: string, title: string, now: string)
    ensures var r := UpdateList(boards, boardId, listId, title, now);
      && OnlyBoardChanged(boards, r, boardId)
      && (!HasBoard(boards, boardId) ==> r == boards)
      && forall i :: 0 <= i < |boards| && boards[i].id == boardId ==>
           && SameHeader(r[i], boards[i]) && r[i].updatedAt == Some(now)
           && |r[i].lists| == |boards[i].lists|
           && (forall j :: 0 <= j < |boards[i].lists| ==>
                 && r[i].lists[j].id == boards[i].lists[j].id
                 && r[i].lists[j].tasks == boards[i].lists[j].tasks
                 && r[i].lists[j].title == if boards[i].lists[j].id == listId then title else boards[i].lists[j].title)
           && TaskTotal(r[i]) == TaskTotal(boards[i])
  {
    var r := UpdateList(boards, boardId, listId, title, now);
    forall i | 0 <= i < |boards| && boards[i].id == boardId
      ensures TaskTotal(r[i]) == TaskTotal(boards[i])
    {
      ListsTotalPointwise(r[i].lists, boards[i].lists);
    }
  }

  /** `board.lists.filter((list) => list.id !== listId)`. */
  function RemoveList(lists: seq<List>, listId: string): seq<List> {
    Filter(lists, ListIdIsNot(listId))
  }

  /** Removing lists distributes over concatenation, so the surviving lists keep
      their order. */
  lemma RemoveListKeepsOrder(a: seq<List>, b: seq<List>, listId: string)
    ensures RemoveList(a + b, listId) == RemoveList(a, listId) + RemoveList(b, listId)
  {
    FilterAppend(a, b, ListIdIsNot(listId));
  }

  function DeleteList(boards: seq<Board>, boardId: string, listId: string, now: string): seq<Board> {
    MapWhere(boards, BoardIdIs(boardId),
      (b: Board) => b.(lists := RemoveList(b.lists, listId), updatedAt := Some(now)))
  }

  /** Deleting removes exactly the lists carrying `listId` (with their tasks) and
      keeps the rest; the board is stamped even when no list carries it. */
  lemma DeleteListSpec(boards: seq<Board>, boardId: string, listId: string, now: string)
    ensures var r := DeleteList(boards, boardId, listId, now);
      && OnlyBoardChanged(boards, r, boardId)
      && (!HasBoard(boards, boardId) ==> r == boards)
      && forall i :: 0 <= i < |boards| && boards[i].id == boardId ==>
           && SameHeader(r[i], boards[i]) && r[i].updatedAt == Some(now)
           && r[i].lists == RemoveList(boards[i].lists, listId)
           && (forall l :: l in r[i].lists <==> l in boards[i].lists && l.id != listId)
           && ((forall j :: 0 <= j < |boards[i].lists| ==> boards[i].lists[j].id != listId) ==>
                 r[i].lists == boards[i].lists)
           && TaskTotal(r[i]) <= TaskTotal(boards[i])
  {
    var r := DeleteList(boards, boardId, listId, now);
    forall i | 0 <= i < |boards| && boards[i].id == boardId
      ensures (forall l :: l in r[i].lists <==> l in boards[i].lists && l.id != listId)
      ensures TaskTotal(r[i]) <= TaskTotal(boards[i])
    {
      forall l ensures l in r[i].lists <==> l in boards[i].lists && l.id != listId {
        FilterMembers(boards[i].lists, ListIdIsNot(listId), l);
      }
      ListsTotalFilter(boards[i].lists, ListIdIsNot(listId));
    }
  }

  // ---------------------------------------------------------------- task-level edits

  /** `{ id: uuidv4(), ...taskData, createdBy: user.id, createdAt: now }`. */
  function NewTask(taskId: string, draft: TaskDraft, userId: string, now: string): Task {
    Task(taskId, draft.title, draft.description, draft.dueDate, draft.priority, draft.status,
         userId, now, draft.updatedAt)
  }

  /** The new task carries the fresh id, the signed-in user as creator and the
      task stamp as creation time; every other field comes from the draft,
      which cannot set `id`, `createdBy` or `createdAt`. */
  lemma NewTaskSpec(taskId: string, draft: TaskDraft, userId: string, now: string)
    ensures var t := NewTask(taskId, draft, userId, now);
      && t.id == taskId && t.createdBy == userId && t.createdAt == now
      && t.title == draft.title && t.description == draft.description && t.dueDate == draft.dueDate
      && t.priority == draft.priority && t.status == draft.status && t.updatedAt == draft.updatedAt
  {
  }

  /** `board.lists.map((list) => list.id === listId ? { ...list, tasks: [...list.tasks, task] } : list)`. */
  function AppendTask(lists: seq<List>, listId: string, task: Task): seq<List> {
    MapWhere(lists, ListIdIs(listId), (l: List) => l.(tasks := l.tasks + [task]))
  }

  /** `createTask`; without a signed-in user nothing changes. The clock is read
      twice: `taskNow` for the task's `createdAt`, `now` for the board. */
  function CreateTask(boards: seq<Board>, user: Option<User>, boardId: string, listId: string,
                      taskId: string, draft: TaskDraft, taskNow: string, now: string): seq<Board>
  {
    match user
    case None => boards
    case Some(u) =>
      MapWhere(boards, BoardIdIs(boardId),
        (b: Board) => b.(lists := AppendTask(b.lists, listId, NewTask(taskId, draft, u.id, taskNow)),
                         updatedAt := Some(now)))
  }

  /** The new task, owned by the signed-in user, goes last in the addressed list;
      every other list and board is untouched. */
  lemma CreateTaskSpec(boards: seq<Board>, user: Option<User>, boardId: string, listId: string,
                       taskId: string, draft: TaskDraft, taskNow: string, now: string)
    ensures var r := CreateTask(boards, user, boardId, listId, taskId, draft, taskNow, now);
      && (user.None? ==> r == boards)
      && OnlyBoardChanged(boards, r, boardId)
      && (!HasBoard(boards, boardId) ==> r == boards)
      && (user.Some? ==> forall i :: 0 <= i < |boards| && boards[i].id == boardId ==>
           && SameHeader(r[i], boards[i]) && r[i].updatedAt == Some(now)
           && |r[i].lists| == |boards[i].lists|
           && forall j :: 0 <= j < |boards[i].lists| ==>
                && r[i].lists[j].id == boards[i].lists[j].id
                && r[i].lists[j].title == boards[i].lists[j].title
                && r[i].lists[j].tasks ==
                     if boards[i].lists[j].id == listId
                     then boards[i].lists[j].tasks + [NewTask(taskId, draft, user.value.id, taskNow)]
                     else boards[i].lists[j].tasks)
  {
  }

  /** `list.tasks.map((task) => task.id === taskId ? { ...task, ...taskData, updatedAt: now } : task)`
      inside the addressed list. */
  function PatchTask(lists: seq<List>, listId: string, taskId: string, patch: TaskPatch, now: string): seq<List> {
    MapWhere(lists, ListIdIs(listId),
      (l: List) => l.(tasks := MapWhere(l.tasks, TaskIdIs(taskId), (t: Task) => MergeTask(t, patch, now))))
  }

  /** `updateTask`: `taskNow` stamps the edited tasks, `now` the board. */
  function UpdateTask(boards: seq<Board>, boardId: string, listId: string, taskId: string,
                      patch: TaskPatch, taskNow: string, now: string): seq<Board>
  {
    MapWhere(boards, BoardIdIs(boardId),
      (b: Board) => b.(lists := PatchTask(b.lists, listId, taskId, patch, taskNow), updatedAt := Some(now)))
  }

  /** A task edit merges the patch into the addressed tasks only; lists keep
      their ids, titles and lengths, so the task total is unchanged. */
  lemma UpdateTaskSpec(boards: seq<Board>, boardId: string, listId: string, taskId: string,
                       patch: TaskPatch, taskNow: string, now: string)
    ensures var r := UpdateTask(boards, boardId, listId, taskId, patch, taskNow, now);
      && OnlyBoardChanged(boards, r, boardId)
      && (!HasBoard(boards, boardId) ==> r == boards)
      && forall i :: 0 <= i < |boards| && boards[i].id == boardId ==>
           && SameHeader(r[i], boards[i]) && r[i].updatedAt == Some(now)
           && |r[i].lists| == |boards[i].lists|
           && (forall j :: 0 <= j < |boards[i].lists| ==>
                && r[i].lists[j].id == boards[i].lists[j].id
                && r[i].lists[j].title == boards[i].lists[j].title
                && |r[i].lists[j].tasks| == |boards[i].lists[j].tasks|
                && forall k :: 0 <= k < |boards[i].lists[j].tasks| ==>
                     r[i].lists[j].tasks[k] ==
                       if boards[i].lists[j].id == listId && boards[i].lists[j].tasks[k].id == taskId
                       then MergeTask(boards[i].lists[j].tasks[k], patch, taskNow)
                       else boards[i].lists[j].tasks[k])
           && TaskTotal(r[i]) == TaskTotal(boards[i])
  {
    var r := UpdateTask(boards, boardId, listId, taskId, patch, taskNow, now);
    forall i | 0 <= i < |boards| && boards[i].id == boardId
      ensures TaskTotal(r[i]) == TaskTotal(boards[i])
    {
      ListsTotalPointwise(r[i].lists, boards[i].lists);
    }
  }

  /** `list.tasks.filter((task) => task.id !== taskId)` inside the addressed list. */
  function DropTask(lists: seq<List>, listId: string, taskId: string): seq<List> {
    MapWhere(lists, ListIdIs(listId), (l: List) => l.(tasks := RemoveTask(l.tasks, taskId)))
  }

  function DeleteTask(boards: seq<Board>, boardId: string, listId: string, taskId: string, now: string): seq<Board> {
    MapWhere(boards, BoardIdIs(boardId),
      (b: Board) => b.(lists := DropTask(b.lists, listId, taskId), updatedAt := Some(now)))
  }

  /** Deleting removes exactly the tasks carrying `taskId` from the addressed
      lists; each loses as many tasks as carried that id. */
  lemma DeleteTaskSpec(boards: seq<Board>, boardId: string, listId: string, taskId: string, now: string)
    ensures var r := DeleteTask(boards, boardId, listId, taskId, now);
      && OnlyBoardChanged(boards, r, boardId)
      && (!HasBoard(boards, boardId) ==> r == boards)
      && forall i :: 0 <= i < |boards| && boards[i].id == boardId ==>
           && SameHeader(r[i], boards[i]) && r[i].updatedAt == Some(now)
           && |r[i].lists| == |boards[i].lists|
           && forall j :: 0 <= j < |boards[i].lists| ==>
                && r[i].lists[j].id == boards[i].lists[j].id
                && r[i].lists[j].title == boards[i].lists[j].title
                && (boards[i].lists[j].id != listId ==> r[i].lists[j] == boards[i].lists[j])
                && (boards[i].lists[j].id == listId ==>
                      && r[i].lists[j].tasks == RemoveTask(boards[i].lists[j].tasks, taskId)
                      && (forall t :: t in r[i].lists[j].tasks <==> t in boards[i].lists[j].tasks && t.id != taskId)
                      && |r[i].lists[j].tasks| + CountId(boards[i].lists[j].tasks, taskId) == |boards[i].lists[j].tasks|)
  {
    var r := DeleteTask(boards, boardId, listId, taskId, now);
    forall i, j | 0 <= i < |boards| && boards[i].id == boardId && 0 <= j < |boards[i].lists| && boards[i].lists[j].id == listId
      ensures forall t :: t in r[i].lists[j].tasks <==> t in boards[i].lists[j].tasks && t.id != taskId
      ensures |r[i].lists[j].tasks| + CountId(boards[i].lists[j].tasks, taskId) == |boards[i].lists[j].tasks|
    {
      RemoveTaskSpec(boards[i].lists[j].tasks, taskId);
      RemoveTaskLength(boards[i].lists[j].tasks, taskId);
    }
  }

  /** No task anywhere carries `id` (what `uuidv4()` is trusted to give). */
  predicate TaskIdFresh(boards: seq<Board>, id: string) {
    forall i, j, k :: 0 <= i < |boards| && 0 <= j < |boards[i].lists| && 0 <= k < |boards[i].lists[j].tasks| ==>
      boards[i].lists[j].tasks[k].id != id
  }

  /** `createTask` followed by `deleteTask` of the fresh id restores every list;
      only the addressed board's `updatedAt` differs from the start. */
  lemma CreateThenDeleteTask(boards: seq<Board>, u: User, boardId: string, listId: string,
                             taskId: string, draft: TaskDraft, taskNow: string, now: string, later: string)
    requires TaskIdFresh(boards, taskId)
    ensures var r := DeleteTask(CreateTask(boards, Some(u), boardId, listId, taskId, draft, taskNow, now),
                                boardId, listId, taskId, later);
      && |r| == |boards|
      && forall i :: 0 <= i < |boards| ==>
           r[i] == if boards[i].id == boardId then boards[i].(updatedAt := Some(later)) else boards[i]
  {
    var c := CreateTask(boards, Some(u), boardId, listId, taskId, draft, taskNow, now);
    var r := DeleteTask(c, boardId, listId, taskId, later);
    var t := NewTask(taskId, draft, u.id, taskNow);
    forall i | 0 <= i < |boards| && boards[i].id == boardId
      ensures r[i] == boards[i].(updatedAt := Some(later))
    {
      var ls := boards[i].lists;
      forall j | 0 <= j < |ls| ensures r[i].lists[j] == ls[j] {
        if ls[j].id == listId {
          assert c[i].lists[j].tasks == ls[j].tasks + [t];
          RemoveAppended(ls[j].tasks, t);
        } else {
          assert r[i].lists[j] == ls[j];
        }
      }
      assert r[i].lists == ls;
    }
  }

  // ---------------------------------------------------------------- repository reference

  function ConnectGitHubRepo(boards: seq<Board>, boardId: string, repoUrl: string, now: string): seq<Board> {
    MapWhere(boards, BoardIdIs(boardId),
      (b: Board) => b.(githubRepo := Some(GitHub.RepoName(repoUrl)), updatedAt := Some(now)))
  }

  /** Only the addressed board gains the reference (the extracted owner/repo, or
      the raw input) and a fresh `updatedAt`; every other field stays as it was. */
  lemma ConnectGitHubRepoSpec(boards: seq<Board>, boardId: string, repoUrl: string, now: string)
    ensures var r := ConnectGitHubRepo(boards, boardId, repoUrl, now);
      && OnlyBoardChanged(boards, r, boardId)
      && (!HasBoard(boards, boardId) ==> r == boards)
      && forall i :: 0 <= i < |boards| && boards[i].id == boardId ==>
           && r[i].githubRepo == Some(GitHub.RepoName(repoUrl)) && r[i].updatedAt == Some(now)
           && r[i] == boards[i].(githubRepo := Some(GitHub.RepoName(repoUrl)), updatedAt := Some(now))
  {
  }

  lemma ConnectGitHubRepoSamples(boards: seq<Board>, boardId: string, now: string)
    ensures forall i :: 0 <= i < |boards| && boards[i].id == boardId ==>
      ConnectGitHubRepo(boards, boardId, "https://github.com/acme/widgets", now)[i].githubRepo == Some("acme/widgets")
    ensures forall i :: 0 <= i < |boards| && boards[i].id == boardId ==>
      ConnectGitHubRepo(boards, boardId, "not-a-url", now)[i].githubRepo == Some("not-a-url")
  {
    GitHub.RepoNameOfUrl();
    GitHub.RepoNameOfPlainText();
  }
}
