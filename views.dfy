/** The two derived views of the store: the filtered list shown to the user
    and the aggregate counts. Both are pure functions of the store's fields,
    recomputed on demand. */
module TodoViews {
  import opened TodoTypes
  import opened Sequences

  // ---------------------------------------------------------------------------
  // Case-insensitive substring search

  /** The ASCII letters, upper case and lower case, position by position. */
  const Upper: string := "ABCDEFGHIJKLMNOPQRSTUVWXYZ"
  const Lower: string := "abcdefghijklmnopqrstuvwxyz"

  /** Lower-casing of one character, restricted to ASCII letters: an
      upper-case letter becomes the lower-case letter at the same place in
      the alphabet, any other character is kept. */
  function LowerChar(c: char): (r: char)
    ensures forall k :: 0 <= k < |Upper| && c == Upper[k] ==> r == Lower[k]
    ensures c !in Upper ==> r == c
  {
    if 'A' <= c <= 'Z' then (c as int + 32) as char else c
  }

  /** Lower-casing of a string, character by character. */
  function ToLower(s: string): (r: string)
    ensures |r| == |s|
    ensures forall i :: 0 <= i < |s| ==> r[i] == LowerChar(s[i]) && !('A' <= r[i] <= 'Z')
  {
    seq(|s|, i requires 0 <= i < |s| => LowerChar(s[i]))
  }

  /** `hay` contains `needle` as a contiguous piece (`String.prototype.includes`). */
  predicate Contains(hay: string, needle: string)
    decreases |hay|
  {
    needle <= hay || (|hay| > 0 && Contains(hay[1..], needle))
  }

  /** A window of `hay` starting at `i` spells `needle`. */
  ghost predicate OccursAt(hay: string, needle: string, i: int) {
    0 <= i && i + |needle| <= |hay| && hay[i..i + |needle|] == needle
  }

  /** An occurrence past the first offset is an occurrence in the tail, one
      position earlier, and back. */
  lemma {:induction false} OccursInTail(hay: string, needle: string, i: int)
    requires |hay| > 0 && 0 < i
    ensures OccursAt(hay, needle, i) <==> OccursAt(hay[1..], needle, i - 1)
  {
    if i + |needle| <= |hay| {
      assert hay[1..][i - 1..i - 1 + |needle|] == hay[i..i + |needle|];
    }
  }

  /** `Contains` holds exactly when `needle` occurs at some offset of `hay`. */
  lemma {:induction false} ContainsIffOccurs(hay: string, needle: string)
    ensures Contains(hay, needle) <==> exists i :: OccursAt(hay, needle, i)
    decreases |hay|
  {
    if needle <= hay {
      assert OccursAt(hay, needle, 0);
    } else if |hay| > 0 {
      ContainsIffOccurs(hay[1..], needle);
      assert !OccursAt(hay, needle, 0) by {
        if |needle| <= |hay| {
          assert hay[0..|needle|] == hay[..|needle|];
        }
      }
      forall i | OccursAt(hay, needle, i) ensures OccursAt(hay[1..], needle, i - 1) {
        OccursInTail(hay, needle, i);
      }
      if Contains(hay[1..], needle) {
        var i :| OccursAt(hay[1..], needle, i);
        OccursInTail(hay, needle, i + 1);
      }
    }
  }

  /** Every character of a contained string occurs in the containing one. */
  lemma {:induction false} ContainedCharsOccur(hay: string, needle: string, c: char)
    requires Contains(hay, needle)
    requires c in needle
    ensures c in hay
  {
    ContainsIffOccurs(hay, needle);
    var i :| OccursAt(hay, needle, i);
    var k :| 0 <= k < |needle| && needle[k] == c;
    assert hay[i + k] == hay[i..i + |needle|][k];
  }

  // ---------------------------------------------------------------------------
  // filteredTodos

  /** The completion test: `completed` keeps finished items, `pending`
      unfinished ones, `all` everything. */
  predicate PassesStatus(t: TodoItem, filter: FilterType) {
    match filter
    case All => true
    case Completed => t.completed
    case Pending => !t.completed
  }

  /** The category test; the sentinel "all" accepts every category. */
  predicate PassesCategory(t: TodoItem, selected: string) {
    selected == AllCategories || t.category == selected
  }

  /** The search test; an empty query accepts everything, otherwise the
      lower-cased title must contain the lower-cased query. */
  predicate PassesSearch(t: TodoItem, query: string) {
    query == "" || Contains(ToLower(t.title), ToLower(query))
  }

  /** The three tests together decide whether an item is shown. */
  predicate Keep(t: TodoItem, filter: FilterType, selected: string, query: string) {
    PassesStatus(t, filter) && PassesCategory(t, selected) && PassesSearch(t, query)
  }

  // The tests above as function values, for `Filter`.

  function StatusFn(filter: FilterType): (p: TodoItem -> bool) {
    t => PassesStatus(t, filter)
  }

  function CategoryFn(selected: string): (p: TodoItem -> bool) {
    t => PassesCategory(t, selected)
  }

  function SearchFn(query: string): (p: TodoItem -> bool) {
    t => PassesSearch(t, query)
  }

  function KeepFn(filter: FilterType, selected: string, query: string): (p: TodoItem -> bool) {
    t => Keep(t, filter, selected, query)
  }

  /** The list view: the todos that pass all three tests, in collection order. */
  function FilteredTodos(todos: seq<TodoItem>, filter: FilterType, selected: string, query: string): (r: seq<TodoItem>)
    ensures |r| <= |todos|
    ensures forall i :: 0 <= i < |r| ==> r[i] in todos && Keep(r[i], filter, selected, query)
    ensures forall i :: 0 <= i < |todos| && Keep(todos[i], filter, selected, query) ==> todos[i] in r
    ensures forall t :: multiset(r)[t] == if Keep(t, filter, selected, query) then multiset(todos)[t] else 0
  {
    FilterMultiplicity(todos, KeepFn(filter, selected, query));
    Filter(todos, KeepFn(filter, selected, query))
  }

  /** The list view keeps the collection's order: it is a subsequence. */
  lemma {:induction false} FilteredIsSubsequence(todos: seq<TodoItem>, filter: FilterType, selected: string, query: string)
    ensures SubsequenceOf(FilteredTodos(todos, filter, selected, query), todos)
  {
    FilterIsSubsequence(todos, KeepFn(filter, selected, query));
  }

  /** Applying the completion, category and search tests one after the other
      gives the list view. */
  lemma {:induction false} FilteredInStages(todos: seq<TodoItem>, filter: FilterType, selected: string, query: string)
    ensures FilteredTodos(todos, filter, selected, query)
         == Filter(Filter(Filter(todos, StatusFn(filter)), CategoryFn(selected)), SearchFn(query))
  {
    FilterInStages(todos, StatusFn(filter), CategoryFn(selected), SearchFn(query), KeepFn(filter, selected, query));
  }

  /** With no restriction selected the view shows the whole collection. */
  lemma {:induction false} UnrestrictedViewIsEverything(todos: seq<TodoItem>)
    ensures FilteredTodos(todos, All, AllCategories, "") == todos
  {
    FilterKeepsAll(todos, KeepFn(All, AllCategories, ""));
  }

  /** The search ignores letter case: queries that lower-case alike select the
      same items. */
  lemma {:induction false} SearchIgnoresCase(todos: seq<TodoItem>, filter: FilterType, selected: string, q1: string, q2: string)
    requires ToLower(q1) == ToLower(q2)
    ensures FilteredTodos(todos, filter, selected, q1) == FilteredTodos(todos, filter, selected, q2)
  {
    assert |q1| == |q2|;
    FilterCongruent(todos, KeepFn(filter, selected, q1), KeepFn(filter, selected, q2));
  }

  // ---------------------------------------------------------------------------
  // todoStats

  datatype TodoStats = TodoStats(total: nat, completed: nat, pending: nat)

  predicate IsCompleted(t: TodoItem) {
    t.completed
  }

  predicate IsPending(t: TodoItem) {
    !t.completed
  }

  /** Every todo is either completed or pending. */
  lemma {:induction false} CompletedPlusPending(todos: seq<TodoItem>)
    ensures |Filter(todos, IsCompleted)| + |Filter(todos, IsPending)| == |todos|
    decreases |todos|
  {
    if |todos| > 0 {
      CompletedPlusPending(todos[1..]);
    }
  }

  /** The completed count is the number of positions holding a finished todo. */
  lemma {:induction false} CountCompleted(todos: seq<TodoItem>)
    ensures |Filter(todos, IsCompleted)| == |set i | 0 <= i < |todos| && todos[i].completed|
  {
    FilterCount(todos, IsCompleted, set i | 0 <= i < |todos| && todos[i].completed);
  }

  /** The pending count is the number of positions holding an unfinished todo. */
  lemma {:induction false} CountPending(todos: seq<TodoItem>)
    ensures |Filter(todos, IsPending)| == |set i | 0 <= i < |todos| && !todos[i].completed|
  {
    FilterCount(todos, IsPending, set i | 0 <= i < |todos| && !todos[i].completed);
  }

  /** The counts over the whole, unfiltered collection. */
  function Stats(todos: seq<TodoItem>): (s: TodoStats)
    ensures s.total == |todos|
    ensures s.completed + s.pending == s.total
    ensures s.completed == |set i | 0 <= i < |todos| && todos[i].completed|
    ensures s.pending == |set i | 0 <= i < |todos| && !todos[i].completed|
  {
    CompletedPlusPending(todos);
    CountCompleted(todos);
    CountPending(todos);
    TodoStats(|todos|, |Filter(todos, IsCompleted)|, |Filter(todos, IsPending)|)
  }

  /** The completed and pending counts equal the lengths of the list view
      under the `completed` and `pending` selectors when no category or
      search restricts it. */
  lemma {:induction false} StatsMatchStatusViews(todos: seq<TodoItem>)
    ensures Stats(todos).completed == |FilteredTodos(todos, Completed, AllCategories, "")|
    ensures Stats(todos).pending == |FilteredTodos(todos, Pending, AllCategories, "")|
  {
    FilterCongruent(todos, KeepFn(Completed, AllCategories, ""), IsCompleted);
    FilterCongruent(todos, KeepFn(Pending, AllCategories, ""), IsPending);
  }

  // ---------------------------------------------------------------------------
  // Worked examples

  const BuyMilk: TodoItem := TodoItem("1", "Buy milk", false, "personal", 0, 0)
  const ShipReport: TodoItem := TodoItem("2", "Ship report", true, "work", 0, 0)

  /** The pending selector keeps only the unfinished item. */
  lemma {:induction false} PendingExample()
    ensures FilteredTodos([BuyMilk, ShipReport], Pending, AllCategories, "") == [BuyMilk]
  {
    assert Filter([ShipReport], KeepFn(Pending, AllCategories, "")) == [];
  }

  /** The lower-cased title of the first example has no letter 's', so no
      query containing one can match it. */
  lemma {:induction false} MilkHasNoS()
    ensures !PassesSearch(BuyMilk, "SHIP")
  {
    var milk := ToLower(BuyMilk.title);
    assert ToLower("SHIP")[0] == 's';
    forall i | 0 <= i < |milk| ensures milk[i] != 's' {
      assert BuyMilk.title[i] in "Buy milk";
    }
    if Contains(milk, ToLower("SHIP")) {
      ContainedCharsOccur(milk, ToLower("SHIP"), 's');
    }
  }

  /** The second example's title starts with the lower-cased query. */
  lemma {:induction false} ShipMatches()
    ensures PassesSearch(ShipReport, "SHIP")
  {
    var q := ToLower("SHIP");
    assert q == "ship";
    assert ToLower(ShipReport.title)[..4] == q;
  }

  /** An upper-case query finds the item whose title contains it in lower case. */
  lemma {:induction false} SearchExample()
    ensures FilteredTodos([BuyMilk, ShipReport], All, AllCategories, "SHIP") == [ShipReport]
  {
    MilkHasNoS();
    ShipMatches();
    var keep := KeepFn(All, AllCategories, "SHIP");
    assert !keep(BuyMilk) && keep(ShipReport);
    assert [BuyMilk, ShipReport][1..] == [ShipReport] && [ShipReport][1..] == [];
    assert Filter([ShipReport], keep) == [ShipReport];
  }
}
