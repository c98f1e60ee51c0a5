/**
 * The statistics panel: how many todos there are, how many are done, how
 * often each priority, project and context occurs, the five most used
 * projects and contexts, and how many reminders are still ahead or already
 * due.
 */
module StatsPanel {
  import opened Wrappers
  import opened Strings
  import opened Calendar
  import opened Todo
  import opened TodoView
  import opened TagSets
  import opened StableSort

  predicate Anything(t: TodoItem) {
    true
  }

  /** Filtering by a test that holds when exactly one of two others does counts the items of each. */
  lemma {:induction false} WhereCountSplit(xs: seq<TodoItem>, p: TodoItem -> bool, a: TodoItem -> bool, b: TodoItem -> bool)
    requires forall t :: p(t) == (a(t) || b(t)) && !(a(t) && b(t))
    ensures |Where(xs, p)| == |Where(xs, a)| + |Where(xs, b)|
  {
    if |xs| > 0 {
      WhereCountSplit(xs[1..], p, a, b);
    }
  }

  /** One more item is kept at the end exactly when it passes. */
  lemma {:induction false} WhereAppend(xs: seq<TodoItem>, x: TodoItem, p: TodoItem -> bool)
    ensures Where(xs + [x], p) == Where(xs, p) + (if p(x) then [x] else [])
  {
    if |xs| > 0 {
      assert (xs + [x])[1..] == xs[1..] + [x];
      WhereAppend(xs[1..], x, p);
    }
  }

  // The overview

  datatype Overview = Overview(total: nat, completed: nat, pending: int)

  /** `total`, `completed` (the todos marked done) and `pending = total - completed`. */
  function OverviewOf(todos: seq<TodoItem>): (o: Overview)
    ensures o.total == |todos| && o.completed <= o.total
    ensures o.completed == |Where(todos, CompletedIs(true))|
    ensures o.pending == |Where(todos, CompletedIs(false))|
  {
    WhereCountSplit(todos, Anything, CompletedIs(true), CompletedIs(false));
    WhereAll(todos, Anything);
    var completed := |Where(todos, CompletedIs(true))|;
    Overview(|todos|, completed, |todos| - completed)
  }

  /**
   * The completion rate, or 0 without todos: the whole percentage nearest
   * to the exact share of completed todos, a half rounded up. The panel
   * rounds `completed / total * 100` computed in binary floating point,
   * which can land just below an exact half and round down instead.
   */
  function CompletionPercentage(todos: seq<TodoItem>): (r: nat)
    ensures r <= 100
    ensures |todos| == 0 ==> r == 0
    ensures |todos| > 0 ==>
      var c := |Where(todos, CompletedIs(true))|;
      2 * |todos| * r <= 200 * c + |todos| < 2 * |todos| * (r + 1)
  {
    var o := OverviewOf(todos);
    if o.total == 0 then 0
    else
      RoundedShare(o.completed, o.total);
      (200 * o.completed + o.total) / (2 * o.total)
  }

  /** `(200 c + t) / (2 t)` is `100 c / t` rounded half up, at most 100 when `c <= t`. */
  lemma RoundedShare(c: nat, t: nat)
    requires c <= t && t > 0
    ensures var q := (200 * c + t) / (2 * t);
      0 <= q <= 100 && 2 * t * q <= 200 * c + t < 2 * t * (q + 1)
  {
    var n, d := 200 * c + t, 2 * t;
    DivBracket(n, d);
    ShareAtMost100(c, t, n / d);
  }

  lemma DivBracket(n: int, d: int)
    requires d > 0
    ensures d * (n / d) <= n < d * (n / d) + d && d * (n / d + 1) == d * (n / d) + d
  {
  }

  lemma ShareAtMost100(c: nat, t: nat, q: int)
    requires c <= t && t > 0 && 2 * t * q <= 200 * c + t < 2 * t * q + 2 * t
    ensures 0 <= q <= 100
  {
    if q > 100 {
      MultiplyAtLeast(2 * t, q, 101);
    }
    if q < 0 {
      MultiplyAtLeast(2 * t, -1, q);
    }
  }

  lemma MultiplyAtLeast(d: nat, q: int, k: int)
    requires q >= k
    ensures d * q >= d * k
  {
  }

  // Records of counts

  /** A `Record<string, number>` of counts, with its keys in insertion order. */
  datatype Tally = Tally(keys: seq<string>, counts: map<string, nat>)

  /** `acc[key] = (acc[key] || 0) + 1`: a key met for the first time goes last, with 1. */
  function Bump(acc: Tally, key: string): Tally {
    if key in acc.counts then Tally(acc.keys, acc.counts[key := acc.counts[key] + 1])
    else Tally(acc.keys + [key], acc.counts[key := 1])
  }

  /**
   * `acc` counts `names`: its keys are the distinct names in the order they
   * first occur, and each key's count is how often it occurs.
   */
  ghost predicate Counts(acc: Tally, names: seq<string>) {
    && acc.keys == Dedup(names)
    && (forall x :: x in acc.counts <==> x in names)
    && (forall x | x in acc.counts :: acc.counts[x] == multiset(names)[x])
  }

  lemma BumpCounts(acc: Tally, names: seq<string>, x: string)
    requires Counts(acc, names)
    ensures Counts(Bump(acc, x), names + [x])
  {
    DedupNext(names, x);
    assert multiset(names + [x]) == multiset(names) + multiset{x};
  }

  lemma CountsOfNothing()
    ensures Counts(Tally([], map[]), [])
  {
  }

  /** `Object.entries(acc)`: the pairs of key and count, in key order. */
  function Entries(acc: Tally): seq<(string, nat)>
    requires forall k :: k in acc.keys ==> k in acc.counts
    decreases |acc.keys|
  {
    if |acc.keys| == 0 then []
    else
      var init := acc.keys[..|acc.keys| - 1];
      var last := acc.keys[|acc.keys| - 1];
      assert forall k :: k in init ==> k in acc.keys;
      Entries(Tally(init, acc.counts)) + [(last, acc.counts[last])]
  }

  function Sum(entries: seq<(string, nat)>): nat {
    if |entries| == 0 then 0 else Sum(entries[..|entries| - 1]) + entries[|entries| - 1].1
  }

  /** How often the names of `ks` occur in `m`, together. */
  function CountSum(ks: seq<string>, m: multiset<string>): nat {
    if |ks| == 0 then 0 else CountSum(ks[..|ks| - 1], m) + m[ks[|ks| - 1]]
  }

  lemma {:induction false} CountSumAdd(ks: seq<string>, m: multiset<string>, x: string)
    requires Distinct(ks)
    ensures CountSum(ks, m + multiset{x}) == CountSum(ks, m) + (if x in ks then 1 else 0)
  {
    if |ks| > 0 {
      var init, last := ks[..|ks| - 1], ks[|ks| - 1];
      assert ks == init + [last];
      assert Distinct(init) by {
        forall i, j | 0 <= i < j < |init| ensures init[i] != init[j] {
          assert init[i] == ks[i] && init[j] == ks[j];
        }
      }
      CountSumAdd(init, m, x);
      if x == last {
        forall i | 0 <= i < |init| ensures init[i] != x {
          assert init[i] == ks[i];
        }
      }
    }
  }

  /** Over the distinct names, the counts add up to the number of names. */
  lemma {:induction false} CountSumAll(names: seq<string>)
    ensures CountSum(Dedup(names), multiset(names)) == |names|
  {
    if |names| > 0 {
      var init, last := names[..|names| - 1], names[|names| - 1];
      assert names == init + [last];
      var d := Dedup(init);
      DedupNext(init, last);
      CountSumAll(init);
      CountSumAdd(d, multiset(init), last);
      assert multiset(names) == multiset(init) + multiset{last};
      if last !in d {
        assert (d + [last])[..|d|] == d;
        assert multiset(init)[last] == 0;
      }
    }
  }

  lemma {:induction false} EntriesSum(acc: Tally, m: multiset<string>)
    requires forall k :: k in acc.keys ==> k in acc.counts && acc.counts[k] == m[k]
    ensures Sum(Entries(acc)) == CountSum(acc.keys, m)
    decreases |acc.keys|
  {
    if |acc.keys| > 0 {
      var init := acc.keys[..|acc.keys| - 1];
      var e := Entries(Tally(init, acc.counts));
      var last := (acc.keys[|acc.keys| - 1], acc.counts[acc.keys[|acc.keys| - 1]]);
      EntriesSum(Tally(init, acc.counts), m);
      assert (e + [last])[..|e|] == e;
    }
  }

  /** The values of a record of counts add up to the number of names counted. */
  lemma CountsTotal(acc: Tally, names: seq<string>)
    requires Counts(acc, names)
    ensures forall k :: k in acc.keys ==> k in acc.counts
    ensures Sum(Entries(acc)) == |names|
  {
    EntriesSum(acc, multiset(names));
    CountSumAll(names);
  }

  /**
   * `byProject` (or `byContext`): for every todo, every one of its names
   * bumped in the record, so a name repeated within one todo counts twice.
   */
  method CountNames(todos: seq<TodoItem>, kind: TagKind) returns (acc: Tally)
    ensures Counts(acc, AllNames(todos, kind))
  {
    acc := Tally([], map[]);
    CountsOfNothing();
    assert AllNames(todos[..0], kind) == [];
    for i := 0 to |todos|
      invariant Counts(acc, AllNames(todos[..i], kind))
    {
      AllNamesNext(todos, i, kind);
      acc := CountEach(acc, NamesOf(todos[i], kind), AllNames(todos[..i], kind));
    }
    assert todos[..|todos|] == todos;
  }

  /** `names.forEach(name => { acc[name] = (acc[name] || 0) + 1 })` on a record counting `before`. */
  method CountEach(acc0: Tally, names: seq<string>, ghost before: seq<string>) returns (acc: Tally)
    requires Counts(acc0, before)
    ensures Counts(acc, before + names)
  {
    acc := acc0;
    assert before + names[..0] == before;
    for j := 0 to |names|
      invariant Counts(acc, before + names[..j])
    {
      CountStep(acc, before, names, j);
      acc := Bump(acc, names[j]);
    }
    assert names[..|names|] == names;
  }

  lemma CountStep(acc: Tally, before: seq<string>, names: seq<string>, j: nat)
    requires j < |names| && Counts(acc, before + names[..j])
    ensures Counts(Bump(acc, names[j]), before + names[..j + 1])
  {
    NextPrefix(before, names, j);
    BumpCounts(acc, before + names[..j], names[j]);
  }

  lemma NextPrefix(before: seq<string>, names: seq<string>, j: nat)
    requires j < |names|
    ensures before + names[..j] + [names[j]] == before + names[..j + 1]
  {
    assert names[..j + 1] == names[..j] + [names[j]];
  }

  predicate Prioritized(t: TodoItem) {
    t.priority.Some?
  }

  /** The priority letters of the todos that have one, in list order. */
  function PriorityLetters(todos: seq<TodoItem>): seq<string> {
    if |todos| == 0 then []
    else
      var last := todos[|todos| - 1];
      PriorityLetters(todos[..|todos| - 1]) + (if last.priority.Some? then [[last.priority.value]] else [])
  }

  /**
   * Each todo with a priority gives its letter once: a letter occurs as
   * often as todos have that priority, and there are as many letters as
   * todos with a priority, at most all of them.
   */
  lemma {:induction false} PriorityLettersCount(todos: seq<TodoItem>)
    ensures |PriorityLetters(todos)| == |Where(todos, Prioritized)| <= |todos|
    ensures forall p: Priority :: multiset(PriorityLetters(todos))[[p]] == |Where(todos, PriorityIs(Some(p)))|
  {
    if |todos| > 0 {
      var init, last := todos[..|todos| - 1], todos[|todos| - 1];
      assert todos == init + [last];
      PriorityLettersCount(init);
      WhereAppend(init, last, Prioritized);
      forall p: Priority
        ensures multiset(PriorityLetters(todos))[[p]] == |Where(todos, PriorityIs(Some(p)))|
      {
        WhereAppend(init, last, PriorityIs(Some(p)));
        if last.priority.Some? {
          assert [last.priority.value] == [p] <==> last.priority == Some(p);
        }
      }
    }
  }

  lemma PriorityLettersNext(todos: seq<TodoItem>, i: nat)
    requires i < |todos|
    ensures PriorityLetters(todos[..i + 1]) ==
      PriorityLetters(todos[..i]) + (if todos[i].priority.Some? then [[todos[i].priority.value]] else [])
  {
    assert todos[..i + 1][..i] == todos[..i];
  }

  lemma PriorityStep(acc: Tally, todos: seq<TodoItem>, i: nat)
    requires i < |todos| && Counts(acc, PriorityLetters(todos[..i]))
    ensures todos[i].priority.Some? ==> Counts(Bump(acc, [todos[i].priority.value]), PriorityLetters(todos[..i + 1]))
    ensures todos[i].priority.None? ==> Counts(acc, PriorityLetters(todos[..i + 1]))
  {
    PriorityLettersNext(todos, i);
    if todos[i].priority.Some? {
      BumpCounts(acc, PriorityLetters(todos[..i]), [todos[i].priority.value]);
    } else {
      assert PriorityLetters(todos[..i + 1]) == PriorityLetters(todos[..i]);
    }
  }

  /** `byPriority`: for every todo with a priority, its letter bumped in the record. */
  method CountPriorities(todos: seq<TodoItem>) returns (acc: Tally)
    ensures Counts(acc, PriorityLetters(todos))
  {
    acc := Tally([], map[]);
    CountsOfNothing();
    assert PriorityLetters(todos[..0]) == [];
    for i := 0 to |todos|
      invariant Counts(acc, PriorityLetters(todos[..i]))
    {
      PriorityStep(acc, todos, i);
      if todos[i].priority.Some? {
        acc := Bump(acc, [todos[i].priority.value]);
      }
    }
    assert todos[..|todos|] == todos;
  }

  /**
   * The priority counts add up to the number of todos with a priority, and
   * each letter's count is the number of todos with that priority.
   */
  lemma PriorityTotals(todos: seq<TodoItem>, acc: Tally)
    requires Counts(acc, PriorityLetters(todos))
    ensures forall k :: k in acc.keys ==> k in acc.counts
    ensures Sum(Entries(acc)) == |Where(todos, Prioritized)| <= |todos|
    ensures forall p: Priority :: [p] in acc.counts ==> acc.counts[[p]] == |Where(todos, PriorityIs(Some(p)))|
  {
    CountsTotal(acc, PriorityLetters(todos));
    PriorityLettersCount(todos);
    forall p: Priority | [p] in acc.counts
      ensures acc.counts[[p]] == |Where(todos, PriorityIs(Some(p)))|
    {
      assert acc.counts[[p]] == multiset(PriorityLetters(todos))[[p]];
    }
  }

  function NameKey(e: (string, nat)): seq<int> {
    Codes(e.0)
  }

  function CountKey(e: (string, nat)): seq<int> {
    [e.1]
  }

  /** The priority table: the entries sorted by their letter. */
  function PriorityRows(acc: Tally): (r: seq<(string, nat)>)
    requires forall k :: k in acc.keys ==> k in acc.counts
    ensures Sorted(r, NameKey, false) && multiset(r) == multiset(Entries(acc))
  {
    SortBySorted(Entries(acc), NameKey, false);
    SortBy(Entries(acc), NameKey, false)
  }

  /** `sort(([, a], [, b]) => b - a).slice(0, 5)`: the five largest counts, largest first. */
  function TopFive(entries: seq<(string, nat)>): seq<(string, nat)> {
    var s := SortBy(entries, CountKey, true);
    s[..if |s| < 5 then |s| else 5]
  }

  lemma CountOrder(a: (string, nat), b: (string, nat))
    ensures Compare(CountKey, true, a, b) <= 0 <==> b.1 <= a.1
  {
    assert CountKey(a) == [a.1] && CountKey(b) == [b.1];
    assert [a.1][1..] == [] && [b.1][1..] == [];
    assert LexCompare([], []) == 0;
    assert LexCompare([a.1], [b.1]) == if a.1 < b.1 then -1 else if a.1 > b.1 then 1 else 0;
  }

  /**
   * The table shows at most five entries of the record, in non-increasing
   * count, and no entry left out has a larger count than one shown.
   */
  lemma TopFiveFacts(entries: seq<(string, nat)>)
    ensures |TopFive(entries)| == if |entries| < 5 then |entries| else 5
    ensures forall e :: e in TopFive(entries) ==> e in entries
    ensures forall i, j :: 0 <= i < j < |TopFive(entries)| ==> TopFive(entries)[j].1 <= TopFive(entries)[i].1
    ensures forall e, i :: e in entries && e !in TopFive(entries) && 0 <= i < |TopFive(entries)| ==>
      e.1 <= TopFive(entries)[i].1
  {
    var s := SortBy(entries, CountKey, true);
    SortBySorted(entries, CountKey, true);
    var r := TopFive(entries);
    assert |s| == |entries| by {
      assert |multiset(s)| == |multiset(entries)|;
    }
    forall e | e in r ensures e in entries {
      assert e in multiset(s);
    }
    forall i, j | 0 <= i < j < |r| ensures r[j].1 <= r[i].1 {
      CountOrder(s[i], s[j]);
    }
    forall e, i | e in entries && e !in r && 0 <= i < |r| ensures e.1 <= r[i].1 {
      assert e in multiset(s);
      var k :| 0 <= k < |s| && s[k] == e;
      assert k >= |r|;
      CountOrder(s[i], s[k]);
    }
  }

  // Reminders

  /** An enabled reminder still ahead: `todo.reminder?.enabled && todo.reminder.dateTime > now`. */
  function Active(now: int): TodoItem -> bool {
    t => HasEnabledReminder(t) && t.reminder.value.dateTime.Time? && t.reminder.value.dateTime.ms > now
  }

  /** An enabled reminder already due: `dateTime <= now`. */
  function Overdue(now: int): TodoItem -> bool {
    t => HasEnabledReminder(t) && t.reminder.value.dateTime.Time? && t.reminder.value.dateTime.ms <= now
  }

  /** An enabled reminder whose date is invalid compares false both ways. */
  predicate Undated(t: TodoItem) {
    HasEnabledReminder(t) && t.reminder.value.dateTime.InvalidDate?
  }

  /**
   * The reminder section appears when some reminder is enabled; each
   * enabled reminder is active, overdue, or (with an invalid date) neither,
   * so active and overdue add up to the enabled ones when all dates are valid.
   */
  lemma ReminderCounts(todos: seq<TodoItem>, now: int)
    ensures (exists t :: t in todos && HasEnabledReminder(t)) <==> |Where(todos, HasEnabledReminder)| > 0
    ensures |Where(todos, Active(now))| + |Where(todos, Overdue(now))| + |Where(todos, Undated)|
      == |Where(todos, HasEnabledReminder)|
    ensures (forall t :: t in todos ==> !Undated(t)) ==>
      |Where(todos, Active(now))| + |Where(todos, Overdue(now))| == |Where(todos, HasEnabledReminder)|
  {
    var due: TodoItem -> bool := t => Overdue(now)(t) || Undated(t);
    forall t ensures HasEnabledReminder(t) == (Active(now)(t) || due(t)) && !(Active(now)(t) && due(t)) {
      assert due(t) == (Overdue(now)(t) || Undated(t));
      if HasEnabledReminder(t) {
        var d := t.reminder.value.dateTime;
        assert Active(now)(t) == (d.Time? && d.ms > now);
        assert Overdue(now)(t) == (d.Time? && d.ms <= now);
      } else {
        assert !Active(now)(t) && !Overdue(now)(t) && !Undated(t);
      }
    }
    WhereCountSplit(todos, HasEnabledReminder, Active(now), due);
    WhereCountSplit(todos, due, Overdue(now), Undated);
    var w := Where(todos, HasEnabledReminder);
    if |w| > 0 {
      assert w[0] in w;
    }
  }
}

/**
 * The Material statistics panel: the same totals, the counts of the
 * priorities A, B and C, how many distinct projects and contexts there are,
 * and how many todos have a reminder switched on.
 */
module StatsPanelMui {
  import opened Wrappers
  import opened Todo
  import opened TodoView
  import opened TagSets
  import StatsPanel

  datatype Stats = Stats(
    total: nat,
    completed: nat,
    active: int,
    priorityA: nat,
    priorityB: nat,
    priorityC: nat,
    projectCount: nat,
    contextCount: nat,
    withReminders: nat)

  /** The `useMemo` that computes the panel's numbers. */
  method ComputeStats(todos: seq<TodoItem>) returns (s: Stats)
    ensures s.total == |todos| && s.completed <= s.total
    ensures s.active == s.total - s.completed == |Where(todos, CompletedIs(false))|
    ensures s.priorityA == |Where(todos, PriorityIs(Some('A')))|
    ensures s.priorityB == |Where(todos, PriorityIs(Some('B')))|
    ensures s.priorityC == |Where(todos, PriorityIs(Some('C')))|
    ensures s.priorityA + s.priorityB + s.priorityC <= s.total
    ensures s.projectCount == |set x | x in AllNames(todos, Projects)|
    ensures s.contextCount == |set x | x in AllNames(todos, Contexts)|
    ensures s.withReminders == |Where(todos, HasEnabledReminder)| <= s.total
  {
    var overview := StatsPanel.OverviewOf(todos);
    var projects, contexts := CollectNames(todos);
    DedupCount(AllNames(todos, Projects));
    DedupCount(AllNames(todos, Contexts));
    PrioritiesAtMostAll(todos);
    s := Stats(
      overview.total,
      overview.completed,
      overview.total - overview.completed,
      |Where(todos, PriorityIs(Some('A')))|,
      |Where(todos, PriorityIs(Some('B')))|,
      |Where(todos, PriorityIs(Some('C')))|,
      |projects|,
      |contexts|,
      |Where(todos, HasEnabledReminder)|);
  }

  lemma PrioritiesAtMostAll(todos: seq<TodoItem>)
    ensures |Where(todos, PriorityIs(Some('A')))| + |Where(todos, PriorityIs(Some('B')))|
      + |Where(todos, PriorityIs(Some('C')))| <= |todos|
  {
    var ab: TodoItem -> bool := (t: TodoItem) => t.priority == Some('A') || t.priority == Some('B');
    var abc: TodoItem -> bool := (t: TodoItem) => ab(t) || t.priority == Some('C');
    StatsPanel.WhereCountSplit(todos, ab, PriorityIs(Some('A')), PriorityIs(Some('B')));
    StatsPanel.WhereCountSplit(todos, abc, ab, PriorityIs(Some('C')));
  }
}
