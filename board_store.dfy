/** `BoardProvider` (src/contexts/BoardContext.tsx:93-380): the two state cells
    `boards` and `currentBoardId`, replaced by each operation. The signed-in user
    (`useAuth().user`), fresh ids and the timestamp are passed in. */
module BoardStore {
  import opened Wrappers
  import opened Types
  import opened Boards
  import opened Moves

  // The seed's descriptions.
  const WelcomeText := "Welcome to TaskFlow! This is a demo board to help you get started."
  const FirstBoardText := "Click the \"New Board\" button to create your own board"
  const AddTasksText := "Click the \"Add Task\" button in any list to create tasks"
  const ExploreText := "Explore the different features of TaskFlow"
  const SignedUpText := "You have successfully signed up for TaskFlow"

  /** `initialBoards`. Its five `new Date().toISOString()` reads are `t1`..`t4`
      for the four tasks, in order, and `t5` for the board. */
  function Seed(t1: string, t2: string, t3: string, t4: string, t5: string): seq<Board> {
    [Board("demo-board-1", "Getting Started",
       Some(WelcomeText),
       [ List("list-1", "To Do",
           [ Task("task-1", "Create your first board",
                  Some(FirstBoardText),
                  None, Medium, Todo, "system", t1, None),
             Task("task-2", "Add tasks to your board",
                  Some(AddTasksText),
                  None, Low, Todo, "system", t2, None) ]),
         List("list-2", "In Progress",
           [ Task("task-3", "Learn to use TaskFlow", Some(ExploreText),
                  None, High, InProgress, "system", t3, None) ]),
         List("list-3", "Done",
           [ Task("task-4", "Sign up for TaskFlow", Some(SignedUpText),
                  None, Medium, Done, "system", t4, None) ]) ],
       "system", t5, None, None)]
  }

  /** Moving "task-1" from "To Do" to "Done" on the seed board leaves "task-2"
      alone in "To Do" and makes "task-1" the second, done, task of "Done". */
  lemma SeedMoveScenario(t1: string, t2: string, t3: string, t4: string, t5: string,
                          taskNow: string, now: string)
    ensures var s := Seed(t1, t2, t3, t4, t5);
      var r := Moves.MoveTask(s, "demo-board-1", "list-1", "list-3", "task-1", taskNow, now);
      && |r| == 1 && |r[0].lists| == 3
      && r[0].lists[0].tasks == [s[0].lists[0].tasks[1]]
      && |r[0].lists[2].tasks| == 2
      && r[0].lists[2].tasks[0] == s[0].lists[2].tasks[0]
      && r[0].lists[2].tasks[1].id == "task-1"
      && r[0].lists[2].tasks[1].status == Done
      && r[0].lists[1] == s[0].lists[1]
      && TaskTotal(r[0]) == TaskTotal(s[0])
  {
    var s := Seed(t1, t2, t3, t4, t5);
    SeedLocated(s, t1, t2, t3, t4, t5);
    MoveTaskBetweenLists(s, "demo-board-1", "list-1", "list-3", "task-1", taskNow, now);
    MoveTaskPreservesTotal(s, "demo-board-1", "list-1", "list-3", "task-1", taskNow, now);
    DoneListStatus();
  }

  /** Where the seed scenario's board, lists and task sit in the seed. */
  lemma SeedLocated(s: seq<Board>, t1: string, t2: string, t3: string, t4: string, t5: string)
    requires s == Seed(t1, t2, t3, t4, t5)
    ensures BoardIndex(s, "demo-board-1") == 0
    ensures ListIndex(s[0].lists, "list-1") == 0 && ListIndex(s[0].lists, "list-3") == 2
    ensures TaskIndex(s[0].lists[0].tasks, "task-1") == 0
    ensures RemoveTask(s[0].lists[0].tasks, "task-1") == [s[0].lists[0].tasks[1]]
    ensures CountId(s[0].lists[0].tasks, "task-1") == 1
    ensures s[0].lists[2].title == "Done"
  {
    var lists := s[0].lists;
    assert BoardIdIs("demo-board-1")(s[0]);
    assert ListIdIs("list-1")(lists[0]);
    assert !ListIdIs("list-3")(lists[0]) && !ListIdIs("list-3")(lists[1]) && ListIdIs("list-3")(lists[2]);
    assert TaskIdIs("task-1")(lists[0].tasks[0]);
    assert RemoveTask(lists[0].tasks, "task-1") == [lists[0].tasks[1]];
    RemoveTaskLength(lists[0].tasks, "task-1");
  }

  class BoardProvider {
    var boards: seq<Board>
    var currentBoardId: Option<string>

    /** The first render: the seed boards, the first of them current
        (`initialBoards[0]?.id || null`). */
    constructor (t1: string, t2: string, t3: string, t4: string, t5: string)
      ensures boards == Seed(t1, t2, t3, t4, t5)
      ensures currentBoardId == Some("demo-board-1")
      ensures CurrentBoard() == Some(Seed(t1, t2, t3, t4, t5)[0])
    {
      boards := Seed(t1, t2, t3, t4, t5);
      currentBoardId := Some("demo-board-1");
      new;
      assert BoardIdIs("demo-board-1")(boards[0]);
    }

    /** `currentBoard`, derived from the two cells. */
    function CurrentBoard(): Option<Board>
      reads this
    {
      FindBoard(boards, currentBoardId)
    }

    method SetCurrentBoard(boardId: string)
      modifies this
      ensures currentBoardId == Some(boardId) && boards == old(boards)
    {
      currentBoardId := Some(boardId);
    }

    /** Without a user nothing changes; otherwise the new board goes last and
        becomes current. */
    method CreateBoard(user: Option<User>, boardId: string, todoId: string, progressId: string, doneId: string,
                       title: string, description: Option<string>, now: string)
      modifies this
      ensures user.None? ==> boards == old(boards) && currentBoardId == old(currentBoardId)
      ensures user.Some? ==>
        && boards == old(boards) + [NewBoard(boardId, todoId, progressId, doneId, title, description, user.value.id, now)]
        && currentBoardId == Some(boardId)
      ensures user.Some? && !HasBoard(old(boards), boardId) ==>
        CurrentBoard() == Some(NewBoard(boardId, todoId, progressId, doneId, title, description, user.value.id, now))
    {
      if user.None? {
        return;
      }
      var newBoard := NewBoard(boardId, todoId, progressId, doneId, title, description, user.value.id, now);
      if !HasBoard(boards, boardId) {
        CreatedBoardIsCurrent(boards, newBoard);
      }
      boards := boards + [newBoard];
      currentBoardId := Some(newBoard.id);
    }

    method UpdateBoard(boardId: string, patch: BoardPatch, now: string)
      modifies this
      ensures boards == Boards.UpdateBoard(old(boards), boardId, patch, now)
      ensures currentBoardId == old(currentBoardId)
    {
      boards := Boards.UpdateBoard(boards, boardId, patch, now);
    }

    method DeleteBoard(boardId: string)
      modifies this
      ensures boards == Boards.DeleteBoard(old(boards), boardId)
      ensures currentBoardId == CurrentAfterDelete(old(boards), old(currentBoardId), boardId)
    {
      var before := boards;
      boards := Boards.DeleteBoard(boards, boardId);
      if currentBoardId == Some(boardId) {
        currentBoardId := CurrentAfterDelete(before, currentBoardId, boardId);
      }
    }

    method CreateList(boardId: string, listId: string, title: string, now: string)
      modifies this
      ensures boards == Boards.CreateList(old(boards), boardId, listId, title, now)
      ensures currentBoardId == old(currentBoardId)
    {
      boards := Boards.CreateList(boards, boardId, listId, title, now);
    }

    method UpdateList(boardId: string, listId: string, title: string, now: string)
      modifies this
      ensures boards == Boards.UpdateList(old(boards), boardId, listId, title, now)
      ensures currentBoardId == old(currentBoardId)
    {
      boards := Boards.UpdateList(boards, boardId, listId, title, now);
    }

    method DeleteList(boardId: string, listId: string, now: string)
      modifies this
      ensures boards == Boards.DeleteList(old(boards), boardId, listId, now)
      ensures currentBoardId == old(currentBoardId)
    {
      boards := Boards.DeleteList(boards, boardId, listId, now);
    }

    method CreateTask(user: Option<User>, boardId: string, listId: string, taskId: string,
                      draft: TaskDraft, taskNow: string, now: string)
      modifies this
      ensures boards == Boards.CreateTask(old(boards), user, boardId, listId, taskId, draft, taskNow, now)
      ensures currentBoardId == old(currentBoardId)
    {
      if user.None? {
        return;
      }
      boards := Boards.CreateTask(boards, user, boardId, listId, taskId, draft, taskNow, now);
    }

    method UpdateTask(boardId: string, listId: string, taskId: string, patch: TaskPatch, taskNow: string, now: string)
      modifies this
      ensures boards == Boards.UpdateTask(old(boards), boardId, listId, taskId, patch, taskNow, now)
      ensures currentBoardId == old(currentBoardId)
    {
      boards := Boards.UpdateTask(boards, boardId, listId, taskId, patch, taskNow, now);
    }

    method DeleteTask(boardId: string, listId: string, taskId: string, now: string)
      modifies this
      ensures boards == Boards.DeleteTask(old(boards), boardId, listId, taskId, now)
      ensures currentBoardId == old(currentBoardId)
    {
      boards := Boards.DeleteTask(boards, boardId, listId, taskId, now);
    }

    /** Step by step, as the source does it: three lookups with early exits, a
        copy of the lists with the source and destination slots overwritten, and
        a copy of the boards with the board's slot overwritten. */
    method MoveTask(boardId: string, fromListId: string, toListId: string, taskId: string, taskNow: string, now: string)
      modifies this
      ensures boards == Moves.MoveTask(old(boards), boardId, fromListId, toListId, taskId, taskNow, now)
      ensures currentBoardId == old(currentBoardId)
    {
      var boardIndex := BoardIndex(boards, boardId);
      if boardIndex == -1 {
        return;
      }
      var board := boards[boardIndex];
      var fromListIndex := ListIndex(board.lists, fromListId);
      if fromListIndex == -1 {
        return;
      }
      var fromList := board.lists[fromListIndex];
      var taskIndex := TaskIndex(fromList.tasks, taskId);
      if taskIndex == -1 {
        return;
      }
      var task := fromList.tasks[taskIndex];
      var newLists := board.lists;
      newLists := newLists[fromListIndex := fromList.(tasks := RemoveTask(fromList.tasks, taskId))];
      var toListIndex := ListIndex(board.lists, toListId);
      if toListIndex != -1 {
        var toList := board.lists[toListIndex];
        newLists := newLists[toListIndex := toList.(tasks := toList.tasks + [Restamp(task, toList.title, taskNow)])];
      }
      var newBoards := boards;
      newBoards := newBoards[boardIndex := board.(lists := newLists, updatedAt := Some(now))];
      boards := newBoards;
    }

    method ConnectGitHubRepo(boardId: string, repoUrl: string, now: string)
      modifies this
      ensures boards == Boards.ConnectGitHubRepo(old(boards), boardId, repoUrl, now)
      ensures currentBoardId == old(currentBoardId)
    {
      boards := Boards.ConnectGitHubRepo(boards, boardId, repoUrl, now);
    }
  }
}
