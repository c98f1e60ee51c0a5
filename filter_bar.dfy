/**
 * The filter bar's handlers: each builds a new filter from the current one
 * with one field replaced (`{ ...filter, field: value }`), the tag buttons
 * toggle a name in or out of the project or context list, and the tag
 * lists offer every name the todos carry.
 */
module FilterBar {
  import opened Wrappers
  import opened Strings
  import opened Todo
  import opened TagSets

  /** `names.filter(n => n !== name)` */
  function Removed(names: seq<string>, name: string): (r: seq<string>)
    ensures forall x :: x in r <==> x in names && x != name
    ensures |r| <= |names|
  {
    if |names| == 0 then []
    else
      var rest := Removed(names[1..], name);
      assert forall x :: x in names <==> x == names[0] || x in names[1..];
      if names[0] == name then rest else [names[0]] + rest
  }

  /** Without the name, nothing is removed. */
  lemma {:induction false} RemovedAbsent(names: seq<string>, name: string)
    requires name !in names
    ensures Removed(names, name) == names
  {
    if |names| > 0 {
      RemovedAbsent(names[1..], name);
    }
  }

  /**
   * The toggle of `toggleProjectFilter`/`toggleContextFilter`: a selected
   * name is taken out wherever it occurs, another is added at the end; an
   * empty result is stored as `undefined`.
   */
  function Toggled(current: Option<seq<string>>, name: string): Option<seq<string>> {
    var names := current.GetOr([]);
    var next := if name in names then Removed(names, name) else names + [name];
    if |next| > 0 then Some(next) else None
  }

  /** A toggle never stores an empty list; it removes a selected name and appends any other. */
  lemma ToggledFacts(current: Option<seq<string>>, name: string)
    ensures Toggled(current, name) != Some([])
    ensures name in current.GetOr([]) ==> name !in Toggled(current, name).GetOr([])
    ensures name in current.GetOr([]) ==>
      forall x :: x in Toggled(current, name).GetOr([]) <==> x in current.GetOr([]) && x != name
    ensures name !in current.GetOr([]) ==> Toggled(current, name) == Some(current.GetOr([]) + [name])
  {
  }

  /** Toggling a name that was not selected twice gives the list back, unless it was stored as `[]`. */
  lemma ToggleTwice(current: Option<seq<string>>, name: string)
    requires name !in current.GetOr([]) && current != Some([])
    ensures Toggled(Toggled(current, name), name) == current
  {
    var names := current.GetOr([]);
    RemovedAbsent(names, name);
    assert Removed(names + [name], name) == names by {
      RemovedLast(names, name);
    }
  }

  lemma {:induction false} RemovedLast(names: seq<string>, name: string)
    requires name !in names
    ensures Removed(names + [name], name) == names
  {
    if |names| == 0 {
      assert [name][1..] == [];
    } else {
      assert (names + [name])[1..] == names[1..] + [name];
      RemovedLast(names[1..], name);
    }
  }

  function ToggleProject(f: TodoFilter, project: string): TodoFilter {
    f.(projects := Toggled(f.projects, project))
  }

  function ToggleContext(f: TodoFilter, context: string): TodoFilter {
    f.(contexts := Toggled(f.contexts, context))
  }

  /** Status select: `all` is no criterion, `true` completed, any other value open. */
  function CompletedChange(f: TodoFilter, value: string): (r: TodoFilter)
    ensures r.completed.None? <==> value == "all"
    ensures r.completed == Some(true) <==> value == "true"
  {
    f.(completed := if value == "all" then None else Some(value == "true"))
  }

  /** Priority select: the empty option is no criterion. */
  function PriorityChange(f: TodoFilter, value: Option<Priority>): TodoFilter {
    f.(priority := value)
  }

  /** `searchText: value || undefined` */
  function SearchChange(f: TodoFilter, value: string): (r: TodoFilter)
    ensures r.searchText.None? <==> value == ""
    ensures r.searchText.Some? ==> r.searchText.value == value
  {
    f.(searchText := if value == "" then None else Some(value))
  }

  /** `clearFilters`: the empty filter `{}`. */
  function ClearFilters(): TodoFilter {
    NoFilter
  }

  /** Each handler changes its own field of the filter and no other. */
  lemma HandlersChangeOneField(f: TodoFilter, name: string, value: string, p: Option<Priority>)
    ensures var g := ToggleProject(f, name);
      g.completed == f.completed && g.priority == f.priority && g.contexts == f.contexts && g.searchText == f.searchText
    ensures var g := ToggleContext(f, name);
      g.completed == f.completed && g.priority == f.priority && g.projects == f.projects && g.searchText == f.searchText
    ensures var g := CompletedChange(f, value);
      g.priority == f.priority && g.projects == f.projects && g.contexts == f.contexts && g.searchText == f.searchText
    ensures var g := PriorityChange(f, p);
      g.completed == f.completed && g.projects == f.projects && g.contexts == f.contexts && g.searchText == f.searchText
    ensures var g := SearchChange(f, value);
      g.completed == f.completed && g.priority == f.priority && g.projects == f.projects && g.contexts == f.contexts
  {
  }

  /** `Array.from(new Set(todos.flatMap(todo => todo.projects)))` */
  function AllTags(todos: seq<TodoItem>, kind: TagKind): seq<string> {
    Dedup(AllNames(todos, kind))
  }

  /**
   * The tag buttons: each name some todo carries, once, in the order of its
   * first occurrence.
   */
  lemma AllTagsFacts(todos: seq<TodoItem>, kind: TagKind)
    ensures Distinct(AllTags(todos, kind))
    ensures forall x :: x in AllTags(todos, kind) <==> exists k :: 0 <= k < |todos| && x in NamesOf(todos[k], kind)
    ensures forall i, j :: 0 <= i < j < |AllTags(todos, kind)| ==>
      FirstIndex(AllNames(todos, kind), AllTags(todos, kind)[i]) < FirstIndex(AllNames(todos, kind), AllTags(todos, kind)[j])
  {
    forall x ensures x in AllTags(todos, kind) <==> exists k :: 0 <= k < |todos| && x in NamesOf(todos[k], kind) {
      AllNamesMember(todos, kind, x);
    }
    DedupKeepsFirstOrder(AllNames(todos, kind));
  }
}

/**
 * The Material version of the filter bar: sorted tag lists, a status
 * select with `active`/`completed`, multi-selects for the tags, chips that
 * remove one criterion, and the sort select whose value joins field and
 * direction with a `-`.
 */
module FilterBarMui {
  import opened Wrappers
  import opened Strings
  import opened Todo
  import opened TagSets
  import opened StableSort
  import opened TodoView
  import FilterBar

  /** An ordering that sorts strings as the default `sort()` does: by their UTF-16 code units. */
  function TextKey(s: string): seq<int> {
    Utf16(s)
  }

  lemma TextKeyInjective(a: string, b: string)
    requires TextKey(a) == TextKey(b)
    ensures a == b
  {
    Utf16Injective(a, b);
  }

  /** Each string at most once: the count of every string is at most one. */
  lemma {:induction false} DistinctCounts(s: seq<string>)
    ensures Distinct(s) <==> forall x :: multiset(s)[x] <= 1
  {
    if |s| > 0 {
      DistinctCounts(s[1..]);
      assert s == [s[0]] + s[1..];
      if Distinct(s) {
        assert s[0] !in s[1..];
        assert Distinct(s[1..]) by {
          forall i, j | 0 <= i < j < |s[1..]| ensures s[1..][i] != s[1..][j] {
            assert s[1..][i] == s[i + 1] && s[1..][j] == s[j + 1];
          }
        }
      }
      if forall x :: multiset(s)[x] <= 1 {
        assert forall x :: multiset(s[1..])[x] <= 1 by {
          forall x ensures multiset(s[1..])[x] <= 1 {
            assert multiset(s)[x] == multiset([s[0]])[x] + multiset(s[1..])[x];
          }
        }
        assert multiset(s[1..])[s[0]] == 0 by {
          assert multiset(s)[s[0]] == 1 + multiset(s[1..])[s[0]];
        }
        forall i, j | 0 <= i < j < |s| ensures s[i] != s[j] {
          if i == 0 {
            assert s[j] in s[1..];
          } else {
            assert s[i] == s[1..][i - 1] && s[j] == s[1..][j - 1];
          }
        }
      }
    }
  }

  /**
   * The `useMemo` that fills a `Set` of projects and one of contexts over
   * the todos and returns each as a sorted array.
   */
  method UniqueSortedTags(todos: seq<TodoItem>) returns (allProjects: seq<string>, allContexts: seq<string>)
    ensures forall x :: x in allProjects <==> x in AllNames(todos, Projects)
    ensures forall x :: x in allContexts <==> x in AllNames(todos, Contexts)
    ensures Distinct(allProjects) && Distinct(allContexts)
    ensures Sorted(allProjects, TextKey, false) && Sorted(allContexts, TextKey, false)
  {
    var projects, contexts := CollectNames(todos);
    allProjects := Sort(projects, TextKey, false);
    allContexts := Sort(contexts, TextKey, false);
    SortBySorted(projects, TextKey, false);
    SortBySorted(contexts, TextKey, false);
    SortedPermutation(projects, allProjects);
    SortedPermutation(contexts, allContexts);
  }

  lemma SortedPermutation(set0: seq<string>, sorted: seq<string>)
    requires Distinct(set0) && multiset(sorted) == multiset(set0)
    ensures Distinct(sorted) && forall x :: x in sorted <==> x in set0
  {
    DistinctCounts(set0);
    DistinctCounts(sorted);
    forall x ensures x in sorted <==> x in set0 {
      assert x in sorted <==> x in multiset(sorted);
      assert x in set0 <==> x in multiset(set0);
    }
  }

  /** Status select: `all` is no criterion, `completed` completed, any other value open. */
  function CompletedChange(f: TodoFilter, value: string): (r: TodoFilter)
    ensures r.completed.None? <==> value == "all"
    ensures r.completed == Some(true) <==> value == "completed"
    ensures r.(completed := f.completed) == f
  {
    f.(completed := if value == "all" then None else Some(value == "completed"))
  }

  /** A multi-select's value; an empty selection is stored as `undefined`. */
  function Selection(value: seq<string>): (r: Option<seq<string>>)
    ensures r != Some([]) && r.GetOr([]) == value
  {
    if |value| > 0 then Some(value) else None
  }

  function ProjectsChange(f: TodoFilter, value: seq<string>): TodoFilter {
    f.(projects := Selection(value))
  }

  function ContextsChange(f: TodoFilter, value: seq<string>): TodoFilter {
    f.(contexts := Selection(value))
  }

  /** `hasActiveFilters` */
  predicate HasActiveFilters(f: TodoFilter) {
    || (f.searchText.Some? && f.searchText.value != "")
    || f.completed.Some?
    || f.priority.Some?
    || (f.projects.Some? && |f.projects.value| > 0)
    || (f.contexts.Some? && |f.contexts.value| > 0)
  }

  /**
   * A filter that is not active lets every todo through, so the list shows
   * them all; the cleared filter is not active.
   */
  lemma InactiveFilterShowsAll(todos: seq<TodoItem>, f: TodoFilter)
    requires !HasActiveFilters(f)
    ensures Filtered(todos, f) == todos
    ensures !HasActiveFilters(FilterBar.ClearFilters())
  {
    WhereAll(todos, Stage(f, 5));
  }

  /** A chip's delete: only that criterion is removed. */
  function RemoveSearch(f: TodoFilter): TodoFilter {
    f.(searchText := None)
  }

  function RemoveCompleted(f: TodoFilter): TodoFilter {
    f.(completed := None)
  }

  function RemovePriority(f: TodoFilter): TodoFilter {
    f.(priority := None)
  }

  /** A project chip's delete: `filter.projects.filter(p => p !== project)`; the list may be left empty. */
  function RemoveProject(f: TodoFilter, project: string): TodoFilter
    requires f.projects.Some?
  {
    f.(projects := Some(FilterBar.Removed(f.projects.value, project)))
  }

  function RemoveContext(f: TodoFilter, context: string): TodoFilter
    requires f.contexts.Some?
  {
    f.(contexts := Some(FilterBar.Removed(f.contexts.value, context)))
  }

  /**
   * Deleting the chip of the only selected project leaves `[]` stored,
   * which filters nothing; with no other criterion the filter is inactive.
   */
  lemma RemoveLastProject(f: TodoFilter, project: string)
    requires f.projects == Some([project])
    ensures RemoveProject(f, project).projects == Some([])
    ensures !HasActiveFilters(f.(projects := None)) ==> !HasActiveFilters(RemoveProject(f, project))
  {
    assert FilterBar.Removed([project], project) == [];
  }

  // The sort select

  function FieldName(f: SortField): string {
    match f
    case ByPriority => "priority"
    case ByCreationDate => "creationDate"
    case ByText => "text"
    case ByCompleted => "completed"
  }

  function DirectionName(d: SortDirection): string {
    match d
    case Ascending => "asc"
    case Descending => "desc"
  }

  function FieldNamed(s: string): Option<SortField> {
    if s == "priority" then Some(ByPriority)
    else if s == "creationDate" then Some(ByCreationDate)
    else if s == "text" then Some(ByText)
    else if s == "completed" then Some(ByCompleted)
    else None
  }

  function DirectionNamed(s: string): Option<SortDirection> {
    if s == "asc" then Some(Ascending) else if s == "desc" then Some(Descending) else None
  }

  /** The select's value: `${sortField}-${sortDirection}`. */
  function SortValue(f: SortField, d: SortDirection): string {
    FieldName(f) + "-" + DirectionName(d)
  }

  /** `handleSortChange`: `value.split('-')` read as field and direction; `None` for a piece that names neither. */
  function SortChange(value: string): (Option<SortField>, Option<SortDirection>) {
    var parts := Split(value, '-');
    (FieldNamed(parts[0]), if |parts| > 1 then DirectionNamed(parts[1]) else None)
  }

  /** The value of the select splits back into the field and direction it was made of. */
  lemma SortValueRoundTrip(f: SortField, d: SortDirection)
    ensures SortChange(SortValue(f, d)) == (Some(f), Some(d))
  {
    var parts := [FieldName(f), DirectionName(d)];
    assert Join(parts, "-") == SortValue(f, d) by {
      assert parts[1..] == [DirectionName(d)];
    }
    JoinSplit(parts, '-');
  }
}
