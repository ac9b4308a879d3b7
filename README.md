# TaskFlow board and session stores in Dafny

A model of the logical core of TaskFlow, a single-page kanban application:

- the **board store** (`BoardProvider`): a sequence of boards, each owning ordered lists of ordered tasks, plus the id of the current board; the create / update / delete operations on boards, lists and tasks; moving a task between lists, with its status derived from the destination list's title; attaching a GitHub repository reference extracted from a URL;
- the **session store** (`AuthProvider`): the four-field session record, the two persisted keys `token` and `user`, restoring a session at start-up, `login`, `signup` and `logout`;
- the **signup form's submit handler**: the ordered password checks and the single `signup` call under a loading flag.

Layout, one module per file:

| file | module | models |
|---|---|---|
| wrappers.dfy | Wrappers | `Option`, for `null` / `undefined` / optional fields |
| types.dfy | Types | the records of `src/types/index.ts` |
| seqs.dfy | Seqs | `findIndex`, `filter`, and `map` that rewrites selected elements |
| text.dfy | Text | ASCII `toLowerCase` and `includes` |
| github.dfy | GitHub | the repository-name extraction of `connectGitHubRepo`, as a scanner |
| boards.dfy | Boards | every board, list and task edit as a pure function, with lemmas |
| moves.dfy | Moves | `moveTask` as a function, the status rule, and the move lemmas |
| board_store.dfy | BoardStore | the `BoardProvider` class, its seed data and the seed scenario |
| session.dfy | Session | the `AuthProvider` class and its storage |
| signup.dfy | Signup | the `SignupForm` submit handler |

Each operation of `BoardProvider` is a pure function from the current boards to the next ones (the source builds each new array with `map`, `filter` and spreads). The class holds the two state cells and assigns them from those functions. `BoardProvider.MoveTask` works step by step as the source does: it looks up three indices with early exits, copies the lists and overwrites two slots, then copies the boards and overwrites one slot. Its postcondition equates the result with `Moves.MoveTask`, and the lemmas in `Moves` state what that function does.

Fresh ids (`uuidv4()`) and timestamps (`new Date().toISOString()`, `Date.now()`) are parameters: `createTask`, `updateTask` and `moveTask` take one stamp for the task (`taskNow`) and one for the board (`now`), and the seed data takes one per `new Date()` it evaluates. Where the source reads the clock inside a `map` callback, once per matching board or task, the model uses one stamp for all of them (see "## Left out"). A lemma that needs an id to be new says so in its own precondition. The operations themselves accept any id, as the source does. The signed-in user, which the board store reads from the session store, is passed to `CreateBoard` and `CreateTask` as an `Option<User>`. `JSON.parse` and `JSON.stringify` are parameters too: parse is `string -> Option<User>`, with `None` where the real one throws.

### Behaviour as written

In these cases the code does something a caller might not expect, and the model follows the code:

- `createTask`, `updateList`, `deleteList`, `updateTask`, `deleteTask` stamp the board's `updatedAt` even when no list or task carries the given id. A caller might expect these to be no-ops.
- `moveTask` with an unknown destination list removes the task from its source and adds it nowhere (`Moves.MoveTaskDropsWithoutDestination`).
- `moveTask` with the same source and destination list reads the destination from the lists as they were before the removal. The list therefore ends with all its original tasks followed by the re-stamped task, so the task appears twice (`Moves.MoveTaskWithinList`). No component of the application calls `moveTask`, so neither case is reachable from the UI.
- `deleteBoard` takes the new current board from `find(...)?.id || null`, so a first surviving board whose id is the empty string gives no current board.
- `deleteBoard(x)` tests only whether the current id is `x`, not whether a board carries it, so with a current id `x` that no board carries the current id still moves to the first board (`Boards.DeleteBoardSpec`).
- `login` accepts every input, empty ones included. The restore effect checks only that the token and the user text are non-empty and that the user text parses; the parsed value's shape is not checked.
- The restore effect's fallback spreads the session captured when the provider mounted, which is the initial one. Its result is therefore always the anonymous session.

## Model

| member | source | states |
|---|---|---|
| Seqs.FindIndex | src/contexts/BoardContext.tsx:304-315 | `findIndex` gives the first index whose element satisfies the predicate, or -1 exactly when no element does |
| Seqs.Filter | src/contexts/BoardContext.tsx:144 | `filter` keeps only elements that satisfy the predicate, never grows the sequence, and returns it unchanged when every element is kept |
| Seqs.FilterAppend | src/contexts/BoardContext.tsx:144 | filtering distributes over concatenation, so the kept elements stay in their original order |
| Seqs.FilterMembers | src/contexts/BoardContext.tsx:144 | an element is in the filtered sequence iff it was in the input and satisfies the predicate |
| Seqs.MapWhere | src/contexts/BoardContext.tsx:130-137 | the id-addressed `map` keeps the length, rewrites exactly the selected elements, and is the identity when none is selected |
| Text.ToLowerAscii | src/contexts/BoardContext.tsx:339 | lower-casing keeps the length, turns each of 'A'..'Z' into its lower-case letter, and keeps every other character |
| Text.ToLowerIdempotent | src/contexts/BoardContext.tsx:339 | lower-casing twice equals lower-casing once |
| Text.IncludesSpec | src/contexts/BoardContext.tsx:339-345 | the scanning `includes` is true exactly when the word occurs at some index of the text |
| Text.MissingCharNotIncluded | src/contexts/BoardContext.tsx:339-345 | a word containing a character the text lacks is not included in it |
| GitHub.RunEnd | src/contexts/BoardContext.tsx:365 | the scanner's `[^/]+` step stops at the first '/' or at the end, with no '/' inside the run |
| GitHub.FindRepoSpec | src/contexts/BoardContext.tsx:365 | the scanner returns the capture of the leftmost match of `github\.com\/([^/]+\/[^/]+)` at or after a start index, or nothing exactly when there is no match there |
| GitHub.RepoNameSpec | src/contexts/BoardContext.tsx:365-366 | when the expression matches, the stored name is the leftmost match's capture, of the form non-empty owner, one '/', non-empty slash-free repo; otherwise it is the input unchanged |
| GitHub.MatchAtUnique | src/contexts/BoardContext.tsx:365 | the capture of a match at a given index is unique (the greedy groups leave no choice) |
| GitHub.RepoNameOfUrl | src/contexts/BoardContext.tsx:365-366 | `https://github.com/acme/widgets` gives `acme/widgets` |
| GitHub.RepoNameOfPlainText | src/contexts/BoardContext.tsx:365-366 | `not-a-url` is stored unchanged |
| Boards.FindBoard | src/contexts/BoardContext.tsx:98 | the current board is the first stored board carrying the current id, and there is none exactly when there is no current id or no board carries it |
| Boards.ListsTotalAppend | src/components/board/BoardList.tsx:133-136 | the task total of concatenated lists is the sum of their totals |
| Boards.ListsTotalUpdate | src/components/board/BoardList.tsx:133-136 | replacing one list changes the total by the difference in that list's task count |
| Boards.ListsTotalPointwise | src/components/board/BoardList.tsx:133-136 | lists with pointwise equal task counts have equal totals |
| Boards.ListsTotalFilter | src/components/board/BoardList.tsx:133-136 | removing lists never raises the total |
| Boards.RemoveTaskLength | src/contexts/BoardContext.tsx:286 | the task filter removes exactly as many tasks as carry the id |
| Boards.RemoveTaskSpec | src/contexts/BoardContext.tsx:286 | a task survives the filter iff it was there and does not carry the id; with no such task the sequence is unchanged |
| Boards.RemoveAppended | src/contexts/BoardContext.tsx:230 | appending a task with a fresh id and filtering that id out restores the sequence |
| Boards.MergeBoardSpec | src/contexts/BoardContext.tsx:132-136 | a board merge takes each field the patch sets, `id` included, keeps each field it leaves out, always stamps `now` whatever the patch says of `updatedAt` |
| Boards.MergeBoardIdempotent | src/contexts/BoardContext.tsx:132-136 | merging the empty patch only stamps `now`; merging the same patch twice equals merging it once |
| Boards.MergeTaskSpec | src/contexts/BoardContext.tsx:258-262 | a task merge takes each field the patch sets, `id` and `status` included, keeps each field it leaves out, always stamps `now` whatever the patch says of `updatedAt` |
| Boards.MergeTaskIdempotent | src/contexts/BoardContext.tsx:258-262 | merging the empty patch only stamps `now`; merging the same patch twice equals merging it once |
| Boards.NewBoardSpec | src/contexts/BoardContext.tsx:110-121 | a new board carries the given id, title and description, exactly the lists "To Do", "In Progress", "Done" with the three fresh list ids, all empty, a task total of 0, `createdBy` the user's id, no linked repository and no `updatedAt` |
| Boards.CreatedBoardIsCurrent | src/contexts/BoardContext.tsx:123-124 | after appending a board with a fresh id and making that id current, the current board is the new board and the earlier boards are unchanged |
| Boards.UpdateBoardSpec | src/contexts/BoardContext.tsx:128-141 | only boards with the id change, each into the merge of the patch stamped `now`; an unknown id leaves the boards unchanged |
| Boards.DeleteBoardSpec | src/contexts/BoardContext.tsx:143-151 | a board survives iff it did not carry the id; the current id changes only when it was the deleted board, and then becomes the first survivor's id, or none when nothing survives or that id is empty |
| Boards.RemoveListKeepsOrder | src/contexts/BoardContext.tsx:197 | list deletion distributes over concatenation, so the surviving lists keep their order |
| Boards.RemoveTaskKeepsOrder | src/contexts/BoardContext.tsx:286 | task deletion distributes over concatenation, so the surviving tasks keep their order |
| Boards.DeleteBoardKeepsOrder | src/contexts/BoardContext.tsx:144 | board deletion distributes over concatenation, so the survivors keep their order |
| Boards.CreateListSpec | src/contexts/BoardContext.tsx:153-172 | on the addressed board the new empty list comes last after the unchanged earlier lists; header and task total are kept and `updatedAt` is `now`; other boards are unchanged and an unknown board id changes nothing |
| Boards.UpdateListSpec | src/contexts/BoardContext.tsx:174-189 | only the lists carrying the list id are retitled; every list keeps its id, position and tasks, the task total is kept and the board is stamped `now` even when no list matches; other boards are unchanged |
| Boards.DeleteListSpec | src/contexts/BoardContext.tsx:191-204 | the addressed board's lists become the list filter `Boards.RemoveList` (order kept by `Boards.RemoveListKeepsOrder`); a list survives iff it did not carry the list id; with no such list the lists are unchanged; the task total does not rise; the board is stamped `now`; other boards are unchanged |
| Boards.CreateTaskSpec | src/contexts/BoardContext.tsx:206-239 | with no user nothing changes; otherwise the new task (`Boards.NewTask`, whose fields `Boards.NewTaskSpec` states) comes last in each addressed list, the board is stamped with the second read, every other list is unchanged, and list ids and titles are kept |
| Boards.UpdateTaskSpec | src/contexts/BoardContext.tsx:241-274 | exactly the tasks carrying the task id in the addressed lists become their merge with the patch, stamped with the task stamp; list ids, titles and lengths and the task total are kept; the board is stamped `now` |
| Boards.DeleteTaskSpec | src/contexts/BoardContext.tsx:276-296 | each addressed list's tasks become the task filter `Boards.RemoveTask` (order kept by `Boards.RemoveTaskKeepsOrder`); a task survives iff it does not carry the id, and each list loses exactly the tasks carrying it; other lists are unchanged; the board is stamped `now` |
| Boards.CreateThenDeleteTask | src/contexts/BoardContext.tsx:206-296 | `createTask` then `deleteTask` with the same fresh id restores every list of every board; only the addressed board's `updatedAt` differs |
| Boards.ConnectGitHubRepoSpec | src/contexts/BoardContext.tsx:363-378 | only the addressed board changes, and only in `githubRepo`, set to the extracted name, and `updatedAt`, set to `now`; every other field is kept |
| Boards.ConnectGitHubRepoSamples | src/contexts/BoardContext.tsx:363-378 | connecting `https://github.com/acme/widgets` stores `acme/widgets`; connecting `not-a-url` stores `not-a-url` |
| Moves.StatusForTitleSpec | src/contexts/BoardContext.tsx:339-345 | the status is Done iff the lower-cased title contains "done"; otherwise InProgress iff it contains "progress"; otherwise Review iff it contains "review"; otherwise Todo |
| Moves.StatusIgnoresCase | src/contexts/BoardContext.tsx:339-345 | the status rule gives the same answer for a title and its lower-cased form |
| Moves.ToDoListStatus | src/contexts/BoardContext.tsx:339-345 | a list titled "To Do" gives Todo |
| Moves.InProgressListStatus | src/contexts/BoardContext.tsx:339-345 | a list titled "In Progress" gives InProgress |
| Moves.DoneListStatus | src/contexts/BoardContext.tsx:339-345 | a list titled "Done" gives Done |
| Moves.MoveTaskNotLocated | src/contexts/BoardContext.tsx:304-315 | a missing board, source list or task leaves the boards exactly unchanged |
| Moves.MoveTaskScope | src/contexts/BoardContext.tsx:351-357 | a located move changes only the located board; it keeps its header and the ids and titles of all its lists, and is stamped with the board stamp `now` |
| Moves.MoveTaskBetweenLists | src/contexts/BoardContext.tsx:320-348 | between distinct existing lists, the task leaves the source and the other source tasks stay in order; one copy with `updatedAt` the task stamp and the destination's status is appended to the destination; every other list is unchanged |
| Moves.MoveTaskPreservesTotal | src/contexts/BoardContext.tsx:320-357 | with a task id unique in its source list, a move between distinct existing lists keeps the board's task total |
| Moves.MoveTaskDropsWithoutDestination | src/contexts/BoardContext.tsx:320-330 | with an unknown destination the task is removed from the source and added nowhere, so the total falls by the number of tasks carrying the id |
| Moves.MoveTaskWithinList | src/contexts/BoardContext.tsx:320-348 | with source equal to destination, the list becomes its original tasks followed by the re-stamped task, which now appears at least twice |
| Boards.MergeBoard | src/contexts/BoardContext.tsx:132-136 | the `{ ...board, ...data, updatedAt }` spread; specified by `Boards.MergeBoardSpec` and `Boards.MergeBoardIdempotent` |
| Boards.MergeTask | src/contexts/BoardContext.tsx:258-262 | the `{ ...task, ...taskData, updatedAt }` spread; specified by `Boards.MergeTaskSpec` and `Boards.MergeTaskIdempotent` |
| Boards.NewBoard | src/contexts/BoardContext.tsx:110-121 | the board `createBoard` builds; specified by `Boards.NewBoardSpec` |
| Boards.UpdateBoard | src/contexts/BoardContext.tsx:128-141 | `updateBoard` on the board sequence; specified by `Boards.UpdateBoardSpec` |
| Boards.DeleteBoard | src/contexts/BoardContext.tsx:143-144 | the board filter of `deleteBoard`; specified by `Boards.DeleteBoardSpec` and `Boards.DeleteBoardKeepsOrder` |
| Boards.CurrentAfterDelete | src/contexts/BoardContext.tsx:146-148 | the current id after `deleteBoard`; specified by `Boards.DeleteBoardSpec` |
| Boards.CreateList | src/contexts/BoardContext.tsx:153-172 | `createList` on the board sequence; specified by `Boards.CreateListSpec` |
| Boards.UpdateList | src/contexts/BoardContext.tsx:174-189 | `updateList` on the board sequence; specified by `Boards.UpdateListSpec` |
| Boards.DeleteList | src/contexts/BoardContext.tsx:191-204 | `deleteList` on the board sequence; specified by `Boards.DeleteListSpec` |
| Boards.CreateTask | src/contexts/BoardContext.tsx:206-239 | `createTask` on the board sequence; specified by `Boards.CreateTaskSpec` and `Boards.CreateThenDeleteTask` |
| Boards.UpdateTask | src/contexts/BoardContext.tsx:241-274 | `updateTask` on the board sequence; specified by `Boards.UpdateTaskSpec` |
| Boards.DeleteTask | src/contexts/BoardContext.tsx:276-296 | `deleteTask` on the board sequence; specified by `Boards.DeleteTaskSpec` and `Boards.CreateThenDeleteTask` |
| Boards.ConnectGitHubRepo | src/contexts/BoardContext.tsx:363-378 | `connectGitHubRepo` on the board sequence; specified by `Boards.ConnectGitHubRepoSpec` and `Boards.ConnectGitHubRepoSamples` |
| Moves.StatusForTitle | src/contexts/BoardContext.tsx:339-345 | the status rule on a list title; specified by `Moves.StatusForTitleSpec` and `Moves.StatusIgnoresCase` |
| Moves.MoveTask | src/contexts/BoardContext.tsx:298-357 | `moveTask` on the board sequence; specified by the `Moves.MoveTask*` lemmas |
| GitHub.RepoName | src/contexts/BoardContext.tsx:365-366 | the stored repository name; specified by `GitHub.RepoNameSpec` |
| Text.Includes | src/contexts/BoardContext.tsx:339-345 | the scanning `includes`; specified by `Text.IncludesSpec` |
| Session.LoginUser | src/contexts/AuthContext.tsx:54-58 | the user `login` builds; specified by `Session.AuthProvider.Login` and `Session.LocalPart` |
| Session.SignupUser | src/contexts/AuthContext.tsx:89-93 | the user `signup` builds; specified by `Session.AuthProvider.Signup` |
| Session.Persist | src/contexts/AuthContext.tsx:72-73 | the two storage writes of a sign-in; specified by `Session.PersistThenRestore` |
| Session.Cleared | src/contexts/AuthContext.tsx:131-132 | the two storage removals of `logout`; specified by `Session.ClearedThenRestore` |
| BoardStore.Seed | src/contexts/BoardContext.tsx:27-91 | `initialBoards`; specified by `BoardStore.SeedMoveScenario` and the provider's constructor |
| BoardStore.BoardProvider.CurrentBoard | src/contexts/BoardContext.tsx:98 | the `currentBoard` the provider exposes; specified by `Boards.FindBoard`, the constructor and `BoardStore.BoardProvider.CreateBoard` |
| Boards.ListsTotal | src/components/board/BoardList.tsx:133-136 | the task total of a board's lists; specified by `Boards.ListsTotalAppend`, `Boards.ListsTotalUpdate`, `Boards.ListsTotalPointwise` and `Boards.ListsTotalFilter` |
| Boards.RemoveTask | src/contexts/BoardContext.tsx:286 | the task filter of `deleteTask` and `moveTask`; specified by `Boards.RemoveTaskSpec` and `Boards.RemoveTaskLength` |
| Boards.NewTask | src/contexts/BoardContext.tsx:216-221 | the task `createTask` builds; specified by `Boards.NewTaskSpec` |
| Boards.NewTaskSpec | src/contexts/BoardContext.tsx:216-221 | the new task carries the fresh id, the user's id as `createdBy` and the task stamp as `createdAt`; title, description, due date, priority, status and `updatedAt` come from the task data |
| Boards.AppendTask | src/contexts/BoardContext.tsx:228-231 | appends the new task to each list carrying the list id; specified by `Boards.CreateTaskSpec` |
| Boards.RenameList | src/contexts/BoardContext.tsx:180-182 | retitles each list carrying the list id; specified by `Boards.UpdateListSpec` |
| Boards.RemoveList | src/contexts/BoardContext.tsx:197 | the list filter of `deleteList`; specified by `Boards.DeleteListSpec` |
| Boards.PatchTask | src/contexts/BoardContext.tsx:252-266 | merges the patch into each task carrying the task id, inside each list carrying the list id; specified by `Boards.UpdateTaskSpec` |
| Boards.DropTask | src/contexts/BoardContext.tsx:282-289 | filters the task id out of each list carrying the list id; specified by `Boards.DeleteTaskSpec` |
| Moves.Restamp | src/contexts/BoardContext.tsx:335-346 | the moved copy with the task stamp and the status rule's result; specified by `Moves.MoveTaskBetweenLists` and `Moves.MoveTaskWithinList` |
| Session.MockToken | src/contexts/AuthContext.tsx:61 | the mock token is never empty, so a later restore accepts it (`Session.PersistThenRestore`) |
| Session.SignedIn | src/contexts/AuthContext.tsx:64-69 | the authenticated, not-loading session `login` and `signup` set; specified by `Session.AuthProvider.Login`, `Session.AuthProvider.Signup` and `Session.PersistThenRestore` |
| GitHub.MatchAt | src/contexts/BoardContext.tsx:365 | the reference reading of `/github\.com\/([^/]+\/[^/]+)/` at one index: the host text, then a capture of two non-empty '/'-free parts joined by '/', the second ending at a '/' or at the end; every scanner lemma is stated against it |
| GitHub.MatchHere | src/contexts/BoardContext.tsx:365 | one attempt of the expression at a given index; specified by `GitHub.MatchHereSound` and `GitHub.MatchHereComplete` |
| GitHub.MatchHereSound | src/contexts/BoardContext.tsx:365 | a capture the attempt returns is a match at that index |
| GitHub.MatchHereComplete | src/contexts/BoardContext.tsx:365 | a match at an index is exactly what the attempt there returns |
| GitHub.FindRepo | src/contexts/BoardContext.tsx:365 | the left-to-right scan `match` performs; specified by `GitHub.FindRepoSpec` |
| Session.Holds | src/contexts/AuthContext.tsx:27-30 | the truthiness test on `getItem`: the key is present and its value is not empty; specified through `Session.Restored`, `Session.PersistThenRestore` and `Session.ClearedThenRestore` |
| Moves.Located | src/contexts/BoardContext.tsx:304-315 | all three early exits of `moveTask` are passed; specified by `Moves.MoveTaskNotLocated` (not located: no change) and `Moves.MoveTaskScope` (located: only that board changes) |
| BoardStore.SeedMoveScenario | src/contexts/BoardContext.tsx:27-91 | on the seed board, moving "task-1" from "list-1" to "list-3" leaves only "task-2" in "To Do", gives "Done" two tasks with "task-1" last and done, and keeps the total |
| BoardStore.BoardProvider.constructor | src/contexts/BoardContext.tsx:94-98 | the provider starts with the seed boards and the first seed board as current board |
| BoardStore.BoardProvider.SetCurrentBoard | src/contexts/BoardContext.tsx:100-102 | sets the current id and leaves the boards alone |
| BoardStore.BoardProvider.CreateBoard | src/contexts/BoardContext.tsx:104-126 | with no user nothing changes; otherwise the new board is appended, its id becomes current, and with a fresh id it is the current board |
| BoardStore.BoardProvider.UpdateBoard | src/contexts/BoardContext.tsx:128-141 | the boards become `Boards.UpdateBoard` of the old boards; the current id is kept |
| BoardStore.BoardProvider.DeleteBoard | src/contexts/BoardContext.tsx:143-151 | the boards become `Boards.DeleteBoard` of the old boards; the current id follows `Boards.CurrentAfterDelete`, computed from the boards before deletion |
| BoardStore.BoardProvider.CreateList | src/contexts/BoardContext.tsx:153-172 | the boards become `Boards.CreateList` of the old boards; the current id is kept |
| BoardStore.BoardProvider.UpdateList | src/contexts/BoardContext.tsx:174-189 | the boards become `Boards.UpdateList` of the old boards; the current id is kept |
| BoardStore.BoardProvider.DeleteList | src/contexts/BoardContext.tsx:191-204 | the boards become `Boards.DeleteList` of the old boards; the current id is kept |
| BoardStore.BoardProvider.CreateTask | src/contexts/BoardContext.tsx:206-239 | the boards become `Boards.CreateTask` of the old boards, which is no change without a user |
| BoardStore.BoardProvider.UpdateTask | src/contexts/BoardContext.tsx:241-274 | the boards become `Boards.UpdateTask` of the old boards; the current id is kept |
| BoardStore.BoardProvider.DeleteTask | src/contexts/BoardContext.tsx:276-296 | the boards become `Boards.DeleteTask` of the old boards; the current id is kept |
| BoardStore.BoardProvider.MoveTask | src/contexts/BoardContext.tsx:298-361 | the step-by-step index-and-copy implementation yields exactly `Moves.MoveTask` of the old boards; the current id is kept |
| BoardStore.BoardProvider.ConnectGitHubRepo | src/contexts/BoardContext.tsx:363-380 | the boards become `Boards.ConnectGitHubRepo` of the old boards; the current id is kept |
| Session.LocalPart | src/contexts/AuthContext.tsx:57 | the derived name is a prefix of the email without '@', followed in the email by '@' unless it is the whole email |
| Session.LocalPartSamples | src/contexts/AuthContext.tsx:57 | `a@b.com` gives `a`, `alice` gives `alice`, `@x` gives the empty name |
| Session.Restored | src/contexts/AuthContext.tsx:25-46 | restoring authenticates iff both keys hold non-empty text and the user text parses; it then carries the stored token and parsed user; otherwise the session is anonymous; it always ends loading |
| Session.PersistThenRestore | src/contexts/AuthContext.tsx:64-73 | restoring from what a sign-in stored gives back that same session, when parsing undoes serialising |
| Session.ClearedThenRestore | src/contexts/AuthContext.tsx:121-132 | clearing removes both keys and keeps every other key; a restore afterwards is anonymous; clearing twice equals clearing once |
| Session.AuthProvider.constructor | src/contexts/AuthContext.tsx:16-21 | the session starts with no user and no token, not authenticated, and loading |
| Session.AuthProvider.Restore | src/contexts/AuthContext.tsx:25-46 | the session becomes `Session.Restored` of the storage, which is not written |
| Session.AuthProvider.Login | src/contexts/AuthContext.tsx:49-73 | for any input the session is authenticated, not loading, with the given email and the email's local part as name; both keys are written; the password is not read |
| Session.AuthProvider.Signup | src/contexts/AuthContext.tsx:86-108 | as `Login`, except that the name is exactly the given one |
| Session.AuthProvider.Logout | src/contexts/AuthContext.tsx:121-138 | the session becomes anonymous and not loading, and both keys are removed |
| Session.LoginLogoutRestore | src/contexts/AuthContext.tsx:49-138 | after `login("a@b.com", "x")` and `logout()`, a fresh provider restoring from the same storage is anonymous |
| Signup.Validate | src/components/auth/SignupForm.tsx:23-31 | a mismatch gives "Passwords don't match" whatever the length; matching passwords shorter than 6 give "Password must be at least 6 characters"; there is no error iff the passwords match and have at least 6 characters |
| Signup.SignupForm.constructor | src/components/auth/SignupForm.tsx:15-16 | the form starts with no error, not loading, and no signup calls |
| Signup.SignupForm.HandleSubmit | src/components/auth/SignupForm.tsx:19-43 | the error ends as the validation message, or empty once cleared; on a failed check `signup` is not called and the session is untouched; otherwise `signup` is called exactly once with loading raised during the call, and loading is lowered afterwards |

## Left out

- `toast` notifications and `navigate(...)` calls: side effects with no effect on either store's state.
- `uuidv4()`, `new Date().toISOString()` and `Date.now()`: foreign calls, passed in as parameters, one per read, except inside the `map` callbacks below. Login and signup read `Date.now()` twice, so the user id and the token take separate stamps; `createTask`, `updateTask` and `moveTask` take a task stamp and a board stamp, and `Seed` one stamp per seed task and one for the board.
- Boards.UpdateTask: every task the patch addresses gets the same `taskNow`, where the source reads the clock once per matching task (several tasks can carry one id).
- Boards.UpdateBoard, Boards.CreateList, Boards.UpdateList, Boards.DeleteList, Boards.CreateTask, Boards.UpdateTask, Boards.DeleteTask, Boards.ConnectGitHubRepo: every board carrying the id gets the same `now`, where the source's `map` callback reads the clock once per matching board. Board ids can repeat, because `updateBoard` can write `id`. So the lemmas' conclusion that all matching boards share one `updatedAt` is a property of the model, not of the source.
- `Partial<Board>` and `Partial<Task>` patches that set a required field to an explicit `undefined` (`updateBoard(id, { title: undefined })`): `BoardPatch` and `TaskPatch` only say whether a field is set, and a set field always holds a value of the field's type.
- `localStorage`: a `map<string, string>` field. `JSON.parse` and `JSON.stringify`: caller-supplied functions. A JSON text that parses to something other than a user object (for example `null`) is not modelled, because parse yields either a user or failure.
- `toLowerCase` beyond ASCII: only 'A'..'Z' are lowered.
- The JavaScript regular-expression engine: replaced by the scanner in `GitHub`, proved to give the leftmost match of the same expression.
- React's batching of `setState` and its stale closures: each operation is atomic over the current state. One exception: the restore effect's fallback reads the state captured at mount, which the model keeps.
- The `catch` branches of `login`, `signup` and the signup form's submit: nothing in their `try` blocks can throw in this model, so they are unreachable. The form's "Failed to create account" message is not modelled.
- Password length: JavaScript's `length` counts UTF-16 code units, while the model counts characters.
- `formatDate` in `BoardDetail.tsx` and `TaskCard.tsx`: built on `Date` and locale formatting.
- The non-blank `trim()` guards in `BoardList.tsx` and `BoardDetail.tsx`: treated as the callers' concern. The store operations accept any title.
- Rendering, dialogs, landing pages, route guards and the unused `GitHubRepo` type: UI and navigation only.
- Boards.DeleteListSpec: bounds the task total from above rather than giving the exact loss. The source promises nothing about the total there.
