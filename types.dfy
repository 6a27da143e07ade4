/** The entities the todo store keeps: todo items, categories, the view
    selector and the error flag. */
module TodoTypes {

  datatype Option<+T> = None | Some(value: T)

  /** A point in time. The store stamps requests with the current time; here
      the caller supplies it. */
  type Timestamp = int

  /** A todo item as the server returns it; `id` is assigned by the server. */
  datatype TodoItem = TodoItem(
    id: string,
    title: string,
    completed: bool,
    category: string,
    createdAt: Timestamp,
    updatedAt: Timestamp)

  /** What the user interface passes to addTodo: a todo without id and
      timestamps. */
  datatype TodoDraft = TodoDraft(title: string, completed: bool, category: string)

  /** The body of a create request: a todo without its id. */
  datatype NewTodo = NewTodo(
    title: string,
    completed: bool,
    category: string,
    createdAt: Timestamp,
    updatedAt: Timestamp)

  /** A partial todo: the fields an update request sets. */
  datatype TodoPatch = TodoPatch(
    title: Option<string>,
    completed: Option<bool>,
    category: Option<string>,
    createdAt: Option<Timestamp>,
    updatedAt: Option<Timestamp>)

  const EmptyPatch: TodoPatch := TodoPatch(None, None, None, None, None)

  /** One update request sent to the server: the target id and the body. */
  datatype UpdateRequest = UpdateRequest(id: string, patch: TodoPatch)

  datatype Category = Category(id: string, name: string)

  /** What the user interface passes to addCategory: a category without id. */
  datatype CategoryDraft = CategoryDraft(name: string)

  /** The completion selector of the list view. */
  datatype FilterType = All | Completed | Pending

  /** The value of `selectedCategory` that selects every category. */
  const AllCategories: string := "all"

  /** The category that todos of a deleted category are moved to. */
  const FallbackCategory: string := "personal"

  /** One message per failing operation. */
  datatype ErrorKind =
    | LoadFailed
    | AddTodoFailed
    | UpdateTodoFailed
    | DeleteTodoFailed
    | AddCategoryFailed
    | DeleteCategoryFailed

  /** The identifiers of a todo collection, position by position. */
  function TodoIds(ts: seq<TodoItem>): (ids: seq<string>)
    ensures |ids| == |ts|
    ensures forall i :: 0 <= i < |ts| ==> ids[i] == ts[i].id
  {
    seq(|ts|, i requires 0 <= i < |ts| => ts[i].id)
  }

  /** The identifiers of a category collection, position by position. */
  function CategoryIds(cs: seq<Category>): (ids: seq<string>)
    ensures |ids| == |cs|
    ensures forall i :: 0 <= i < |cs| ==> ids[i] == cs[i].id
  {
    seq(|cs|, i requires 0 <= i < |cs| => cs[i].id)
  }
}
