/**
 * The list the main window shows: the todos that pass every criterion of
 * the filter, sorted by the selected field and direction. The same filter
 * and sort appear in each of the application's main windows.
 */
module TodoView {
  import opened Wrappers
  import opened Strings
  import opened Calendar
  import opened Todo
  import opened StableSort

  /** `xs.filter(keep)` */
  function Where(xs: seq<TodoItem>, keep: TodoItem -> bool): (r: seq<TodoItem>)
    ensures forall t :: t in r <==> t in xs && keep(t)
    ensures |r| <= |xs|
  {
    if |xs| == 0 then []
    else
      var rest := Where(xs[1..], keep);
      assert forall t :: t in xs[1..] ==> t in xs;
      assert xs == [xs[0]] + xs[1..];
      if keep(xs[0]) then [xs[0]] + rest else rest
  }

  /** Filtering by `p` and then by `q` is filtering once by a test that is both. */
  lemma {:induction false} WhereThen(xs: seq<TodoItem>, p: TodoItem -> bool, q: TodoItem -> bool, both: TodoItem -> bool)
    requires forall t :: both(t) == (p(t) && q(t))
    ensures Where(Where(xs, p), q) == Where(xs, both)
  {
    if |xs| > 0 {
      WhereThen(xs[1..], p, q, both);
      if p(xs[0]) {
        assert ([xs[0]] + Where(xs[1..], p))[1..] == Where(xs[1..], p);
      }
    }
  }

  lemma {:induction false} WhereSame(xs: seq<TodoItem>, p: TodoItem -> bool, q: TodoItem -> bool)
    requires forall t :: p(t) == q(t)
    ensures Where(xs, p) == Where(xs, q)
  {
    if |xs| > 0 {
      WhereSame(xs[1..], p, q);
    }
  }

  lemma {:induction false} WhereAll(xs: seq<TodoItem>, p: TodoItem -> bool)
    requires forall t :: p(t)
    ensures Where(xs, p) == xs
  {
    if |xs| > 0 {
      WhereAll(xs[1..], p);
    }
  }

  // The criteria

  /** Some name of `wanted` is among `names` (`wanted.some(n => names.includes(n))`). */
  predicate SharesName(wanted: seq<string>, names: seq<string>) {
    exists n :: n in wanted && n in names
  }

  /** The lower-cased search text occurs in the lower-cased text or in some project or context. */
  predicate Mentions(t: TodoItem, search: string) {
    || Contains(ToLower(t.text), search)
    || (exists p :: p in t.projects && Contains(ToLower(p), search))
    || (exists c :: c in t.contexts && Contains(ToLower(c), search))
  }

  predicate CompletedOk(t: TodoItem, f: TodoFilter) {
    f.completed.None? || t.completed == f.completed.value
  }

  predicate PriorityOk(t: TodoItem, f: TodoFilter) {
    f.priority.None? || t.priority == f.priority
  }

  predicate ProjectsOk(t: TodoItem, f: TodoFilter) {
    f.projects.None? || |f.projects.value| == 0 || SharesName(f.projects.value, t.projects)
  }

  predicate ContextsOk(t: TodoItem, f: TodoFilter) {
    f.contexts.None? || |f.contexts.value| == 0 || SharesName(f.contexts.value, t.contexts)
  }

  predicate SearchOk(t: TodoItem, f: TodoFilter) {
    f.searchText.None? || f.searchText.value == "" || Mentions(t, ToLower(f.searchText.value))
  }

  /** The item passes every criterion the filter sets; an unset criterion passes everything. */
  predicate Matches(t: TodoItem, f: TodoFilter) {
    CompletedOk(t, f) && PriorityOk(t, f) && ProjectsOk(t, f) && ContextsOk(t, f) && SearchOk(t, f)
  }

  /** The first `n` criteria, in the order the filters are applied. */
  predicate PassesFirst(t: TodoItem, f: TodoFilter, n: nat) {
    && (n >= 1 ==> CompletedOk(t, f))
    && (n >= 2 ==> PriorityOk(t, f))
    && (n >= 3 ==> ProjectsOk(t, f))
    && (n >= 4 ==> ContextsOk(t, f))
    && (n >= 5 ==> SearchOk(t, f))
  }

  function Stage(f: TodoFilter, n: nat): TodoItem -> bool {
    t => PassesFirst(t, f, n)
  }

  /** The todos that pass the filter, in their order. */
  function Filtered(todos: seq<TodoItem>, f: TodoFilter): (r: seq<TodoItem>)
    ensures forall t :: t in r <==> t in todos && Matches(t, f)
  {
    Where(todos, Stage(f, 5))
  }

  // The sort keys

  function Codes(s: string): seq<int> {
    seq(|s|, i requires 0 <= i < |s| => s[i] as int)
  }

  /**
   * What the comparator compares for each field: the priority letter with a
   * missing priority as "ZZ", the creation time with a missing or invalid
   * date as 0, the text, and `completed` as 0 or 1.
   */
  function SortKey(t: TodoItem, field: SortField): seq<int> {
    match field
    case ByPriority => Codes(if t.priority.Some? then [t.priority.value] else "ZZ")
    case ByCreationDate => [if t.creationDate.Some? && t.creationDate.value.Time? then t.creationDate.value.ms else 0]
    case ByText => Codes(t.text)
    case ByCompleted => [if t.completed then 1 else 0]
  }

  function KeyOf(field: SortField): TodoItem -> seq<int> {
    t => SortKey(t, field)
  }

  /**
   * In ascending order a missing priority follows every letter, a missing
   * creation date sorts as the date 0, and open items precede completed ones.
   */
  lemma SortKeyFacts(a: TodoItem, b: TodoItem)
    ensures a.priority.None? && b.priority.Some? ==> LexCompare(SortKey(a, ByPriority), SortKey(b, ByPriority)) > 0
    ensures a.priority.Some? && b.priority.Some? ==>
      (LexCompare(SortKey(a, ByPriority), SortKey(b, ByPriority)) < 0 <==> a.priority.value < b.priority.value)
    ensures a.creationDate.None? ==> SortKey(a, ByCreationDate) == [0]
    ensures !a.completed && b.completed ==> LexCompare(SortKey(a, ByCompleted), SortKey(b, ByCompleted)) < 0
  {
  }

  /** The list shown: the filtered todos, stably sorted. */
  function Visible(todos: seq<TodoItem>, f: TodoFilter, field: SortField, dir: SortDirection): seq<TodoItem> {
    SortBy(Filtered(todos, f), KeyOf(field), dir == Descending)
  }

  function CompletedIs(b: bool): TodoItem -> bool {
    (t: TodoItem) => t.completed == b
  }

  function PriorityIs(p: Option<Priority>): TodoItem -> bool {
    (t: TodoItem) => t.priority == p
  }

  function InProjects(wanted: seq<string>): TodoItem -> bool {
    (t: TodoItem) => SharesName(wanted, t.projects)
  }

  function InContexts(wanted: seq<string>): TodoItem -> bool {
    (t: TodoItem) => SharesName(wanted, t.contexts)
  }

  function Mentioning(searchLower: string): TodoItem -> bool {
    t => Mentions(t, searchLower)
  }

  /** Which filter step `n` (1 to 5) applies, if the filter sets that criterion. */
  function Step(f: TodoFilter, n: nat): Option<TodoItem -> bool> {
    if n == 1 then (if f.completed.Some? then Some(CompletedIs(f.completed.value)) else None)
    else if n == 2 then (if f.priority.Some? then Some(PriorityIs(f.priority)) else None)
    else if n == 3 then (if f.projects.Some? && |f.projects.value| > 0 then Some(InProjects(f.projects.value)) else None)
    else if n == 4 then (if f.contexts.Some? && |f.contexts.value| > 0 then Some(InContexts(f.contexts.value)) else None)
    else if n == 5 then (if f.searchText.Some? && f.searchText.value != "" then Some(Mentioning(ToLower(f.searchText.value))) else None)
    else None
  }

  /** Applying step `n` to the list that passed the first `n - 1` criteria leaves the list that passes `n`. */
  lemma StepNarrows(todos: seq<TodoItem>, f: TodoFilter, n: nat)
    requires 1 <= n <= 5
    ensures Step(f, n).Some? ==> Where(Where(todos, Stage(f, n - 1)), Step(f, n).value) == Where(todos, Stage(f, n))
    ensures Step(f, n).None? ==> Where(todos, Stage(f, n - 1)) == Where(todos, Stage(f, n))
  {
    if Step(f, n).Some? {
      WhereThen(todos, Stage(f, n - 1), Step(f, n).value, Stage(f, n));
    } else {
      WhereSame(todos, Stage(f, n - 1), Stage(f, n));
    }
  }

  /**
   * The filter-and-sort effect: each criterion that is set narrows the
   * list in turn, then the list is sorted in place.
   */
  method VisibleTodos(todos: seq<TodoItem>, f: TodoFilter, field: SortField, dir: SortDirection)
    returns (visible: seq<TodoItem>)
    ensures visible == Visible(todos, f, field, dir)
  {
    var filtered := todos;
    WhereAll(todos, Stage(f, 0));
    StepNarrows(todos, f, 1);
    if f.completed.Some? {
      filtered := Where(filtered, CompletedIs(f.completed.value));
    }
    assert filtered == Where(todos, Stage(f, 1));
    StepNarrows(todos, f, 2);
    if f.priority.Some? {
      filtered := Where(filtered, PriorityIs(f.priority));
    }
    assert filtered == Where(todos, Stage(f, 2));
    StepNarrows(todos, f, 3);
    if f.projects.Some? && |f.projects.value| > 0 {
      filtered := Where(filtered, InProjects(f.projects.value));
    }
    assert filtered == Where(todos, Stage(f, 3));
    StepNarrows(todos, f, 4);
    if f.contexts.Some? && |f.contexts.value| > 0 {
      filtered := Where(filtered, InContexts(f.contexts.value));
    }
    assert filtered == Where(todos, Stage(f, 4));
    StepNarrows(todos, f, 5);
    if f.searchText.Some? && f.searchText.value != "" {
      var searchLower := ToLower(f.searchText.value);
      filtered := Where(filtered, Mentioning(searchLower));
    }
    assert filtered == Where(todos, Stage(f, 5));
    visible := Sort(filtered, KeyOf(field), dir == Descending);
  }

  /**
   * Every item shown is a todo that passes the filter, and every such todo
   * is shown as often as it occurs; the list is in the comparator's order;
   * items with equal keys keep their order in `todos`; with the empty
   * filter all todos are shown.
   */
  lemma VisibleFacts(todos: seq<TodoItem>, f: TodoFilter, field: SortField, dir: SortDirection, k: seq<int>)
    ensures forall t :: t in Visible(todos, f, field, dir) <==> t in todos && Matches(t, f)
    ensures multiset(Visible(todos, f, field, dir)) == multiset(Filtered(todos, f))
    ensures Sorted(Visible(todos, f, field, dir), KeyOf(field), dir == Descending)
    ensures Ties(Visible(todos, f, field, dir), KeyOf(field), k) == Ties(Filtered(todos, f), KeyOf(field), k)
    ensures f == NoFilter ==> multiset(Visible(todos, f, field, dir)) == multiset(todos)
  {
    var desc := dir == Descending;
    SortBySorted(Filtered(todos, f), KeyOf(field), desc);
    SortByStable(Filtered(todos, f), KeyOf(field), desc, k);
    var v := Visible(todos, f, field, dir);
    forall t ensures t in v <==> t in todos && Matches(t, f) {
      assert t in v <==> t in multiset(v);
    }
    if f == NoFilter {
      WhereAll(todos, Stage(f, 5));
    }
  }
}
