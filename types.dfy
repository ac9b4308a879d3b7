/** The shapes of src/types/index.ts: users, tasks, lists and boards. Optional
    TypeScript fields (`name?`, `description?`, ...) are `Option`s. */
module Types {
  import opened Wrappers

  datatype User = User(id: string, email: string, name: Option<string>)

  datatype Priority = Low | Medium | High

  /** 'todo' | 'in-progress' | 'review' | 'done' */
  datatype Status = Todo | InProgress | Review | Done

  datatype Task = Task(
    id: string,
    title: string,
    description: Option<string>,
    dueDate: Option<string>,
    priority: Priority,
    status: Status,
    createdBy: string,
    createdAt: string,
    updatedAt: Option<string>)

  datatype List = List(id: string, title: string, tasks: seq<Task>)

  datatype Board = Board(
    id: string,
    title: string,
    description: Option<string>,
    lists: seq<List>,
    createdBy: string,
    createdAt: string,
    updatedAt: Option<string>,
    githubRepo: Option<string>)
}
