/** The client-side todo store: two collections kept in step with the
    server, the view selectors, and the busy and error flags. Every server
    call is an input of the operation that makes it (the reply, or whether
    the call succeeded); the requests the store would send are returned. */
module Todos {
  import opened TodoTypes
  import opened Sequences
  import opened TodoViews

  // ---------------------------------------------------------------------------
  // Specification of the collection updates

  /** `todos` with its first entry carrying `id` overwritten by `item`; the
      collection is unchanged when no entry carries `id`. */
  function ReplaceFirst(todos: seq<TodoItem>, id: string, item: TodoItem): (r: seq<TodoItem>)
    ensures |r| == |todos|
    ensures id !in TodoIds(todos) ==> r == todos
    ensures forall j :: 0 <= j < |todos| ==>
      r[j] == if todos[j].id == id && id !in TodoIds(todos)[..j] then item else todos[j]
  {
    var i := FirstIndex(TodoIds(todos), id);
    if i == -1 then todos else todos[i := item]
  }

  /** When identifiers are unique, the entry carrying `id` is the one replaced. */
  lemma {:induction false} ReplaceUnique(todos: seq<TodoItem>, id: string, item: TodoItem, j: int)
    requires UniqueIds(TodoIds(todos))
    requires 0 <= j < |todos|
    ensures ReplaceFirst(todos, id, item)[j] == if todos[j].id == id then item else todos[j]
  {
  }

  /** The todos of category `c`, in collection order (the snapshot taken by
      deleteCategory before it reassigns them). */
  function InCategory(c: string): (p: TodoItem -> bool) {
    (t: TodoItem) => t.category == c
  }

  function Affected(todos: seq<TodoItem>, c: string): (r: seq<TodoItem>)
    ensures forall i :: 0 <= i < |r| ==> r[i] in todos && r[i].category == c
    ensures forall i :: 0 <= i < |todos| && todos[i].category == c ==> todos[i] in r
    ensures forall t :: multiset(r)[t] == if t.category == c then multiset(todos)[t] else 0
    ensures SubsequenceOf(r, todos)
  {
    FilterMultiplicity(todos, InCategory(c));
    FilterIsSubsequence(todos, InCategory(c));
    Filter(todos, InCategory(c))
  }

  /** The body of the reassignment request, before it is time-stamped. */
  const ReassignPatch: TodoPatch := EmptyPatch.(category := Some(FallbackCategory))

  /** An update body as sent: the caller's fields plus the current time. */
  function Stamped(updates: TodoPatch, now: Timestamp): (p: TodoPatch)
    ensures p.updatedAt == Some(now)
    ensures p.title == updates.title && p.completed == updates.completed && p.category == updates.category
    ensures p.createdAt == updates.createdAt
  {
    updates.(updatedAt := Some(now))
  }

  /** The collection after the reassignment updates for `affected` with the
      given replies: each successful reply replaces the first entry with the
      requested id, each failed one changes nothing. */
  function Reassigned(todos: seq<TodoItem>, affected: seq<TodoItem>, replies: seq<Option<TodoItem>>): (r: seq<TodoItem>)
    requires |replies| == |affected|
    ensures |r| == |todos|
    decreases |affected|
  {
    if |affected| == 0 then todos
    else
      var n := |affected| - 1;
      var before := Reassigned(todos, affected[..n], replies[..n]);
      match replies[n]
      case Some(item) => ReplaceFirst(before, affected[n].id, item)
      case None => before
  }

  /** Extending the prefix of reassignments by one applies the next reply. */
  lemma {:induction false} ReassignedExtend(todos: seq<TodoItem>, affected: seq<TodoItem>, replies: seq<Option<TodoItem>>, k: nat)
    requires |replies| == |affected| && k < |affected|
    ensures Reassigned(todos, affected[..k + 1], replies[..k + 1])
         == match replies[k]
            case Some(item) => ReplaceFirst(Reassigned(todos, affected[..k], replies[..k]), affected[k].id, item)
            case None => Reassigned(todos, affected[..k], replies[..k])
    ensures (None in replies[..k + 1]) == (None in replies[..k] || replies[k].None?)
  {
    assert affected[..k + 1][..k] == affected[..k] && replies[..k + 1][..k] == replies[..k];
    assert replies[..k + 1] == replies[..k] + [replies[k]];
  }

  /** If every reassignment fails, the collection is what it was. */
  lemma {:induction false} FailedReassignmentsKeepTodos(todos: seq<TodoItem>, affected: seq<TodoItem>, replies: seq<Option<TodoItem>>)
    requires |replies| == |affected|
    requires forall k :: 0 <= k < |replies| ==> replies[k].None?
    ensures Reassigned(todos, affected, replies) == todos
    decreases |affected|
  {
    if |affected| > 0 {
      var n := |affected| - 1;
      FailedReassignmentsKeepTodos(todos, affected[..n], replies[..n]);
    }
  }

  /** The server applied the reassignment as asked: it answered with the
      requested todo, now in the fallback category. */
  predicate Reassigns(reply: Option<TodoItem>, id: string) {
    reply.Some? && reply.value.id == id && reply.value.category == FallbackCategory
  }

  /** Some todo among `affected[n..]` carries `id`. */
  ghost predicate PendingReassignment(affected: seq<TodoItem>, n: nat, id: string) {
    exists k :: n <= k < |affected| && affected[k].id == id
  }

  /** The state of the collection `r` after the first `n` reassignments of
      the todos `a` of category `c`: identifiers are unchanged, todos outside
      the category are untouched, and every todo still in the category is one
      whose reassignment is yet to come. */
  ghost predicate CascadeState(todos: seq<TodoItem>, c: string, a: seq<TodoItem>, n: nat, r: seq<TodoItem>) {
    TodoIds(r) == TodoIds(todos)
    && (forall j :: 0 <= j < |r| && todos[j].category != c ==> r[j] == todos[j])
    && (forall j :: 0 <= j < |r| && r[j].category == c ==> PendingReassignment(a, n, r[j].id))
  }

  /** One reassignment applied as asked keeps the cascade state. */
  lemma {:induction false} CascadeStep(todos: seq<TodoItem>, c: string, a: seq<TodoItem>, m: nat, before: seq<TodoItem>, item: TodoItem)
    requires UniqueIds(TodoIds(todos))
    requires c != FallbackCategory
    requires m < |a| && a[m] in todos && a[m].category == c
    requires Reassigns(Some(item), a[m].id)
    requires CascadeState(todos, c, a, m, before)
    ensures CascadeState(todos, c, a, m + 1, ReplaceFirst(before, a[m].id, item))
  {
    var id := a[m].id;
    var r := ReplaceFirst(before, id, item);
    assert UniqueIds(TodoIds(before));
    forall j | 0 <= j < |r|
      ensures r[j] == if before[j].id == id then item else before[j]
    {
      ReplaceUnique(before, id, item, j);
    }
    assert TodoIds(r) == TodoIds(todos);
    var p :| 0 <= p < |todos| && todos[p] == a[m];
    forall j | 0 <= j < |r| && todos[j].category != c
      ensures r[j] == todos[j]
    {
      assert j != p;
      assert TodoIds(todos)[p] != TodoIds(todos)[j];
    }
    forall j | 0 <= j < |r| && r[j].category == c
      ensures PendingReassignment(a, m + 1, r[j].id)
    {
      assert before[j].id != id && r[j] == before[j];
      var k :| m <= k < |a| && a[k].id == before[j].id;
      assert k != m;
    }
  }

  /** Before any reassignment, every todo of the category is still to come. */
  lemma {:induction false} CascadeStart(todos: seq<TodoItem>, c: string)
    ensures CascadeState(todos, c, Affected(todos, c), 0, todos)
  {
    var a := Affected(todos, c);
    forall j | 0 <= j < |todos| && todos[j].category == c
      ensures PendingReassignment(a, 0, todos[j].id)
    {
      var k :| 0 <= k < |a| && a[k] == todos[j];
    }
  }

  /** The cascade state holds after each prefix of the reassignments of a
      snapshot `a` of the category's todos, when the server applies every one
      as asked. */
  lemma {:induction false} CascadeProgress(todos: seq<TodoItem>, c: string, a: seq<TodoItem>, replies: seq<Option<TodoItem>>, n: nat)
    requires UniqueIds(TodoIds(todos))
    requires c != FallbackCategory
    requires forall k :: 0 <= k < |a| ==> a[k] in todos && a[k].category == c
    requires CascadeState(todos, c, a, 0, todos)
    requires |replies| == |a|
    requires forall k :: 0 <= k < |replies| ==> Reassigns(replies[k], a[k].id)
    requires n <= |replies|
    ensures CascadeState(todos, c, a, n, Reassigned(todos, a[..n], replies[..n]))
    decreases n
  {
    if n > 0 {
      var m := n - 1;
      CascadeProgress(todos, c, a, replies, m);
      var before := Reassigned(todos, a[..m], replies[..m]);
      assert a[..n][..m] == a[..m];
      assert replies[..n][..m] == replies[..m];
      assert Reassigns(replies[m], a[m].id);
      var item := replies[m].value;
      assert Reassigned(todos, a[..n], replies[..n]) == ReplaceFirst(before, a[m].id, item);
      CascadeStep(todos, c, a, m, before, item);
    }
  }

  /** Once every reassignment of the snapshot `a` is applied as asked, no
      todo is left in the category. */
  lemma {:induction false} CascadeCompletes(todos: seq<TodoItem>, c: string, a: seq<TodoItem>, replies: seq<Option<TodoItem>>)
    requires UniqueIds(TodoIds(todos))
    requires c != FallbackCategory
    requires forall k :: 0 <= k < |a| ==> a[k] in todos && a[k].category == c
    requires CascadeState(todos, c, a, 0, todos)
    requires |replies| == |a|
    requires forall k :: 0 <= k < |replies| ==> Reassigns(replies[k], a[k].id)
    ensures var r := Reassigned(todos, a, replies);
            TodoIds(r) == TodoIds(todos)
            && (forall j :: 0 <= j < |r| ==> r[j].category != c)
            && (forall j :: 0 <= j < |r| && todos[j].category != c ==> r[j] == todos[j])
  {
    CascadeProgress(todos, c, a, replies, |a|);
    assert a[..|a|] == a && replies[..|a|] == replies;
  }

  /** Deleting a category whose every reassignment the server applies as
      asked leaves no todo in that category, keeps every identifier in
      place and leaves todos of other categories untouched. */
  lemma {:induction false} CascadeClearsCategory(todos: seq<TodoItem>, c: string, replies: seq<Option<TodoItem>>)
    requires UniqueIds(TodoIds(todos))
    requires c != FallbackCategory
    requires |replies| == |Affected(todos, c)|
    requires forall k :: 0 <= k < |replies| ==> Reassigns(replies[k], Affected(todos, c)[k].id)
    ensures var r := Reassigned(todos, Affected(todos, c), replies);
            TodoIds(r) == TodoIds(todos)
            && (forall j :: 0 <= j < |r| ==> r[j].category != c)
            && (forall j :: 0 <= j < |r| && todos[j].category != c ==> r[j] == todos[j])
  {
    CascadeStart(todos, c);
    CascadeCompletes(todos, c, Affected(todos, c), replies);
  }

  /** With unique category identifiers, the deleted category is gone. */
  lemma {:induction false} DeletedCategoryIsGone(categories: seq<Category>, id: string)
    requires UniqueIds(CategoryIds(categories))
    requires id in CategoryIds(categories)
    ensures id !in CategoryIds(SpliceOut(categories, FirstIndex(CategoryIds(categories), id)))
  {
    var ids := CategoryIds(categories);
    var i := FirstIndex(ids, id);
    var rest := SpliceOut(categories, i);
    forall j | 0 <= j < |rest|
      ensures CategoryIds(rest)[j] != id
    {
      if j < i {
        assert ids[j] != ids[i];
      } else {
        assert ids[j + 1] != ids[i];
      }
    }
  }

  // ---------------------------------------------------------------------------
  // The store

  class TodoStore {
    var todos: seq<TodoItem>
    var categories: seq<Category>
    var filter: FilterType
    var selectedCategory: string
    var searchQuery: string
    var loading: bool
    var error: Option<ErrorKind>

    constructor ()
      ensures todos == [] && categories == []
      ensures filter == All && selectedCategory == AllCategories && searchQuery == ""
      ensures !loading && error == None
    {
      todos := [];
      categories := [];
      filter := All;
      selectedCategory := AllCategories;
      searchQuery := "";
      loading := false;
      error := None;
    }

    /** The list view over the current state (`filteredTodos`): the todos
        that pass the current selectors, each with its multiplicity, in
        collection order. */
    function Filtered(): (r: seq<TodoItem>)
      reads this
      ensures forall t :: multiset(r)[t] == if Keep(t, filter, selectedCategory, searchQuery) then multiset(todos)[t] else 0
      ensures SubsequenceOf(r, todos)
    {
      FilteredIsSubsequence(todos, filter, selectedCategory, searchQuery);
      FilteredTodos(todos, filter, selectedCategory, searchQuery)
    }

    /** The counts over the current collection (`todoStats`), whatever the
        selectors are. */
    function CurrentStats(): (s: TodoStats)
      reads this
      ensures s.total == |todos|
      ensures s.completed == |set i | 0 <= i < |todos| && todos[i].completed|
      ensures s.pending == |set i | 0 <= i < |todos| && !todos[i].completed|
    {
      Stats(todos)
    }

    /** Fetches both collections; they are replaced only when both fetches
        succeed. The error flag is cleared first and set on failure. */
    method LoadData(todosReply: Option<seq<TodoItem>>, categoriesReply: Option<seq<Category>>)
      modifies this
      ensures todosReply.Some? && categoriesReply.Some? ==>
        todos == todosReply.value && categories == categoriesReply.value && error == None
      ensures todosReply.None? || categoriesReply.None? ==>
        todos == old(todos) && categories == old(categories) && error == Some(LoadFailed)
      ensures !loading
      ensures filter == old(filter) && selectedCategory == old(selectedCategory) && searchQuery == old(searchQuery)
    {
      loading := true;
      error := None;
      if todosReply.Some? && categoriesReply.Some? {
        todos := todosReply.value;
        categories := categoriesReply.value;
      } else {
        error := Some(LoadFailed);
      }
      loading := false;
    }

    /** Sends the draft stamped with the clock read twice, once for the
        creation and once for the update time; on success the server's todo
        goes to the front. */
    method AddTodo(draft: TodoDraft, createdNow: Timestamp, updatedNow: Timestamp, reply: Option<TodoItem>)
      returns (request: NewTodo)
      modifies this
      ensures request == NewTodo(draft.title, draft.completed, draft.category, createdNow, updatedNow)
      ensures reply.Some? ==> todos == [reply.value] + old(todos) && error == old(error)
      ensures reply.None? ==> todos == old(todos) && error == Some(AddTodoFailed)
      ensures categories == old(categories) && !loading
      ensures filter == old(filter) && selectedCategory == old(selectedCategory) && searchQuery == old(searchQuery)
    {
      loading := true;
      request := NewTodo(draft.title, draft.completed, draft.category, createdNow, updatedNow);
      if reply.Some? {
        todos := [reply.value] + todos;
      } else {
        error := Some(AddTodoFailed);
      }
      loading := false;
    }

    /** Sends the update stamped with the current time; on success the first
        local entry with that id is overwritten by the server's todo, and
        nothing is inserted when there is none. */
    method UpdateTodo(id: string, updates: TodoPatch, now: Timestamp, reply: Option<TodoItem>) returns (request: UpdateRequest)
      modifies this
      ensures request == UpdateRequest(id, Stamped(updates, now))
      ensures reply.Some? ==> todos == ReplaceFirst(old(todos), id, reply.value) && error == old(error)
      ensures reply.None? ==> todos == old(todos) && error == Some(UpdateTodoFailed)
      ensures categories == old(categories) && !loading
      ensures filter == old(filter) && selectedCategory == old(selectedCategory) && searchQuery == old(searchQuery)
    {
      loading := true;
      request := UpdateRequest(id, Stamped(updates, now));
      if reply.Some? {
        var i := FirstIndex(TodoIds(todos), id);
        if i != -1 {
          todos := todos[i := reply.value];
        }
      } else {
        error := Some(UpdateTodoFailed);
      }
      loading := false;
    }

    /** Asks the server to delete; on success the first local entry with that
        id is removed and the others keep their order. */
    method DeleteTodo(id: string, deleted: bool)
      modifies this
      ensures deleted && id in TodoIds(old(todos)) ==>
        todos == SpliceOut(old(todos), FirstIndex(TodoIds(old(todos)), id)) && error == old(error)
      ensures deleted && id !in TodoIds(old(todos)) ==> todos == old(todos) && error == old(error)
      ensures !deleted ==> todos == old(todos) && error == Some(DeleteTodoFailed)
      ensures categories == old(categories) && !loading
      ensures filter == old(filter) && selectedCategory == old(selectedCategory) && searchQuery == old(searchQuery)
    {
      loading := true;
      if deleted {
        var i := FirstIndex(TodoIds(todos), id);
        if i != -1 {
          todos := SpliceOut(todos, i);
        }
      } else {
        error := Some(DeleteTodoFailed);
      }
      loading := false;
    }

    /** Flips the completion flag of the first todo with that id through one
        update; when there is none, no request is sent and nothing changes. */
    method ToggleTodo(id: string, now: Timestamp, reply: Option<TodoItem>) returns (request: Option<UpdateRequest>)
      modifies this
      ensures request.None? <==> id !in TodoIds(old(todos))
      ensures request.None? ==> unchanged(this)
      ensures request.Some? ==>
        var found := old(todos)[FirstIndex(TodoIds(old(todos)), id)];
        request.value == UpdateRequest(id, Stamped(EmptyPatch.(completed := Some(!found.completed)), now))
      ensures request.Some? && reply.Some? ==> todos == ReplaceFirst(old(todos), id, reply.value) && error == old(error)
      ensures request.Some? && reply.None? ==> todos == old(todos) && error == Some(UpdateTodoFailed)
      ensures request.Some? ==> !loading
      ensures categories == old(categories)
      ensures filter == old(filter) && selectedCategory == old(selectedCategory) && searchQuery == old(searchQuery)
    {
      var i := FirstIndex(TodoIds(todos), id);
      if i == -1 {
        return None;
      }
      var found := todos[i];
      var sent := UpdateTodo(id, EmptyPatch.(completed := Some(!found.completed)), now, reply);
      request := Some(sent);
    }

    /** Sends the draft as the body of a create request; on success the
        server's category is appended. */
    method AddCategory(draft: CategoryDraft, reply: Option<Category>) returns (request: CategoryDraft)
      modifies this
      ensures request == draft
      ensures reply.Some? ==> categories == old(categories) + [reply.value] && error == old(error)
      ensures reply.None? ==> categories == old(categories) && error == Some(AddCategoryFailed)
      ensures todos == old(todos) && !loading
      ensures filter == old(filter) && selectedCategory == old(selectedCategory) && searchQuery == old(searchQuery)
    {
      loading := true;
      request := draft;
      if reply.Some? {
        categories := categories + [reply.value];
      } else {
        error := Some(AddCategoryFailed);
      }
      loading := false;
    }

    /** Asks the server to delete a category. On success the first local
        category with that id is removed, then every todo that was in it is
        moved to the fallback category by one update each, in collection
        order; a failed update does not stop the later ones. */
    method DeleteCategory(id: string, deleted: bool, stamps: seq<Timestamp>, replies: seq<Option<TodoItem>>)
      returns (requests: seq<UpdateRequest>)
      requires deleted ==> |replies| == |Affected(todos, id)| && |stamps| == |replies|
      modifies this
      ensures !deleted ==>
        todos == old(todos) && categories == old(categories) && error == Some(DeleteCategoryFailed) && requests == []
      ensures deleted && id in CategoryIds(old(categories)) ==>
        categories == SpliceOut(old(categories), FirstIndex(CategoryIds(old(categories)), id))
      ensures deleted && id !in CategoryIds(old(categories)) ==> categories == old(categories)
      ensures deleted ==>
        var affected := Affected(old(todos), id);
        todos == Reassigned(old(todos), affected, replies)
        && error == (if None in replies then Some(UpdateTodoFailed) else old(error))
        && |requests| == |affected|
        && forall k :: 0 <= k < |affected| ==>
             requests[k] == UpdateRequest(affected[k].id, Stamped(ReassignPatch, stamps[k]))
      ensures !loading
      ensures filter == old(filter) && selectedCategory == old(selectedCategory) && searchQuery == old(searchQuery)
    {
      loading := true;
      requests := [];
      if !deleted {
        error := Some(DeleteCategoryFailed);
        loading := false;
        return;
      }
      var i := FirstIndex(CategoryIds(categories), id);
      if i != -1 {
        categories := SpliceOut(categories, i);
      }
      var affected := Affected(todos, id);
      requests := ReassignAll(affected, stamps, replies);
      loading := false;
    }

    /** Moves each todo of `affected` to the fallback category with one
        update, in order; each update reports its own failure and the next
        one is still sent. */
    method ReassignAll(affected: seq<TodoItem>, stamps: seq<Timestamp>, replies: seq<Option<TodoItem>>)
      returns (requests: seq<UpdateRequest>)
      requires |replies| == |affected| && |stamps| == |affected|
      modifies this
      ensures todos == Reassigned(old(todos), affected, replies)
      ensures error == if None in replies then Some(UpdateTodoFailed) else old(error)
      ensures |requests| == |affected|
      ensures forall k :: 0 <= k < |affected| ==>
                requests[k] == UpdateRequest(affected[k].id, Stamped(ReassignPatch, stamps[k]))
      ensures categories == old(categories)
      ensures filter == old(filter) && selectedCategory == old(selectedCategory) && searchQuery == old(searchQuery)
    {
      requests := [];
      for k := 0 to |affected|
        invariant todos == Reassigned(old(todos), affected[..k], replies[..k])
        invariant error == if None in replies[..k] then Some(UpdateTodoFailed) else old(error)
        invariant |requests| == k
        invariant forall m :: 0 <= m < k ==>
                    requests[m] == UpdateRequest(affected[m].id, Stamped(ReassignPatch, stamps[m]))
        invariant categories == old(categories)
        invariant filter == old(filter) && selectedCategory == old(selectedCategory) && searchQuery == old(searchQuery)
      {
        ReassignedExtend(old(todos), affected, replies, k);
        var sent := UpdateTodo(affected[k].id, ReassignPatch, stamps[k], replies[k]);
        requests := requests + [sent];
      }
      assert affected[..|affected|] == affected && replies[..|affected|] == replies;
    }

    method SetFilter(f: FilterType)
      modifies this`filter
      ensures filter == f
    {
      filter := f;
    }

    method SetSelectedCategory(categoryId: string)
      modifies this`selectedCategory
      ensures selectedCategory == categoryId
    {
      selectedCategory := categoryId;
    }
  }

  // ---------------------------------------------------------------------------
  // Worked examples

  /** Deleting the "work" category moves its one todo to "personal". */
  method DeleteWorkCategoryExample() returns (categories: seq<Category>, todos: seq<TodoItem>, sent: seq<UpdateRequest>)
    ensures categories == [Category("personal", "Personal")]
    ensures todos == [BuyMilk, ShipReport.(category := FallbackCategory, updatedAt := 5)]
    ensures sent == [UpdateRequest("2", EmptyPatch.(category := Some("personal"), updatedAt := Some(5)))]
  {
    var store := new TodoStore();
    var work := Category("work", "Work");
    var personal := Category("personal", "Personal");
    store.LoadData(Some([BuyMilk, ShipReport]), Some([personal, work]));
    assert Affected(store.todos, "work") == [ShipReport] by {
      var keep := InCategory("work");
      assert !keep(BuyMilk) && keep(ShipReport);
      assert [BuyMilk, ShipReport][1..] == [ShipReport] && [ShipReport][1..] == [];
      assert Filter([ShipReport], keep) == [ShipReport];
    }
    assert FirstIndex(CategoryIds(store.categories), "work") == 1 by {
      assert CategoryIds(store.categories) == ["personal", "work"];
      assert ["personal", "work"][1..] == ["work"];
    }
    var moved := ShipReport.(category := FallbackCategory, updatedAt := 5);
    sent := store.DeleteCategory("work", true, [5], [Some(moved)]);
    categories := store.categories;
    todos := store.todos;
  }

  /** A failed category fetch keeps both collections of the previous load,
      even though the todo fetch succeeded. */
  method PartialLoadExample() returns (todos: seq<TodoItem>, categories: seq<Category>, error: Option<ErrorKind>)
    ensures todos == [BuyMilk] && categories == [Category("personal", "Personal")]
    ensures error == Some(LoadFailed)
  {
    var store := new TodoStore();
    store.LoadData(Some([BuyMilk]), Some([Category("personal", "Personal")]));
    store.LoadData(Some([BuyMilk, ShipReport]), None);
    todos, categories, error := store.todos, store.categories, store.error;
  }
}
