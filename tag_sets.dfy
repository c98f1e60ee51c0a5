/**
 * The project and context names of a list of todos: all of them in list
 * order (`todos.flatMap(t => t.projects)`), and the distinct ones in the
 * order a JavaScript `Set` keeps them, the order of first occurrence.
 */
module TagSets {
  import opened Strings
  import opened Todo

  datatype TagKind = Projects | Contexts

  function NamesOf(t: TodoItem, kind: TagKind): seq<string> {
    match kind
    case Projects => t.projects
    case Contexts => t.contexts
  }

  /** `todos.flatMap(todo => todo.projects)`, or the same over contexts. */
  function AllNames(todos: seq<TodoItem>, kind: TagKind): seq<string> {
    if |todos| == 0 then [] else AllNames(todos[..|todos| - 1], kind) + NamesOf(todos[|todos| - 1], kind)
  }

  /** A name is listed exactly when some todo carries it. */
  lemma {:induction false} AllNamesMember(todos: seq<TodoItem>, kind: TagKind, x: string)
    ensures x in AllNames(todos, kind) <==> exists k :: 0 <= k < |todos| && x in NamesOf(todos[k], kind)
  {
    if |todos| > 0 {
      var init := todos[..|todos| - 1];
      AllNamesMember(init, kind, x);
      if x in AllNames(init, kind) {
        var k :| 0 <= k < |init| && x in NamesOf(init[k], kind);
        assert todos[k] == init[k];
      }
      if exists k :: 0 <= k < |todos| && x in NamesOf(todos[k], kind) {
        var k :| 0 <= k < |todos| && x in NamesOf(todos[k], kind);
        if k < |init| {
          assert init[k] == todos[k];
        }
      }
    }
  }

  /** All the names of one more todo are the names before and then its own. */
  lemma AllNamesNext(todos: seq<TodoItem>, i: nat, kind: TagKind)
    requires i < |todos|
    ensures AllNames(todos[..i + 1], kind) == AllNames(todos[..i], kind) + NamesOf(todos[i], kind)
  {
    assert todos[..i + 1][..i] == todos[..i];
  }

  /** `Array.from(new Set(xs))`: every name once, in the order it first occurs. */
  function Dedup(xs: seq<string>): (r: seq<string>)
    ensures Distinct(r)
    ensures forall x :: x in r <==> x in xs
  {
    if |xs| == 0 then []
    else
      var init := xs[..|xs| - 1];
      var d := Dedup(init);
      assert xs == init + [xs[|xs| - 1]];
      if xs[|xs| - 1] in d then d else d + [xs[|xs| - 1]]
  }

  /** `set.add(x)`: a name already in the set changes nothing, a new one goes last. */
  lemma DedupNext(xs: seq<string>, x: string)
    ensures Dedup(xs + [x]) == if x in Dedup(xs) then Dedup(xs) else Dedup(xs) + [x]
  {
    assert (xs + [x])[..|xs|] == xs;
  }

  /** The position of the first `x` in `xs`. */
  function FirstIndex(xs: seq<string>, x: string): (i: nat)
    requires x in xs
    ensures i < |xs| && xs[i] == x && forall k :: 0 <= k < i ==> xs[k] != x
  {
    if xs[0] == x then 0 else 1 + FirstIndex(xs[1..], x)
  }

  lemma FirstIndexOfLonger(xs: seq<string>, e: string, x: string)
    requires x in xs
    ensures FirstIndex(xs + [e], x) == FirstIndex(xs, x)
  {
    var i := FirstIndex(xs, x);
    assert (xs + [e])[i] == x;
  }

  /** The distinct names come in the order of their first occurrence. */
  lemma {:induction false} DedupKeepsFirstOrder(xs: seq<string>)
    ensures forall i, j :: 0 <= i < j < |Dedup(xs)| ==>
      FirstIndex(xs, Dedup(xs)[i]) < FirstIndex(xs, Dedup(xs)[j])
  {
    if |xs| > 0 {
      var init, last := xs[..|xs| - 1], xs[|xs| - 1];
      assert xs == init + [last];
      DedupKeepsFirstOrder(init);
      DedupOrderStep(init, last);
    }
  }

  lemma DedupOrderStep(init: seq<string>, last: string)
    requires forall i, j :: 0 <= i < j < |Dedup(init)| ==>
      FirstIndex(init, Dedup(init)[i]) < FirstIndex(init, Dedup(init)[j])
    ensures forall i, j :: 0 <= i < j < |Dedup(init + [last])| ==>
      FirstIndex(init + [last], Dedup(init + [last])[i]) < FirstIndex(init + [last], Dedup(init + [last])[j])
  {
    var xs, d := init + [last], Dedup(init);
    DedupNext(init, last);
    forall i | 0 <= i < |d|
      ensures FirstIndex(xs, d[i]) == FirstIndex(init, d[i]) < |init|
    {
      assert d[i] in init;
      FirstIndexOfLonger(init, last, d[i]);
    }
    if last !in d {
      assert xs[|init|] == last && last !in init;
      assert FirstIndex(xs, last) == |init|;
    }
  }

  /** As many distinct names as the set of names holds (`set.size`). */
  lemma {:induction false} DedupCount(xs: seq<string>)
    ensures |Dedup(xs)| == |set x | x in xs|
  {
    if |xs| == 0 {
      assert (set x | x in xs) == {};
    } else {
      var init, last := xs[..|xs| - 1], xs[|xs| - 1];
      assert xs == init + [last];
      DedupCount(init);
      DedupCountStep(init, last);
      assert NameSet(xs) == set x | x in xs;
    }
  }

  lemma NamesOfAppend(xs: seq<string>, y: string)
    ensures NameSet(xs + [y]) == NameSet(xs) + {y}
  {
    var a, b := NameSet(xs + [y]), NameSet(xs) + {y};
    forall x | x in a ensures x in b {
      assert x in xs + [y];
    }
    forall x | x in b ensures x in a {
      assert x in xs + [y];
    }
  }

  function NameSet(xs: seq<string>): set<string> {
    set x | x in xs
  }

  lemma DedupCountStep(init: seq<string>, last: string)
    requires |Dedup(init)| == |NameSet(init)|
    ensures |Dedup(init + [last])| == |NameSet(init + [last])|
  {
    DedupNext(init, last);
    NamesOfAppend(init, last);
    var d, names := Dedup(init), NameSet(init);
    if last in init {
      assert last in names && last in d;
      assert names + {last} == names;
    } else {
      assert last !in names && last !in d;
      assert |d + [last]| == |d| + 1;
      assert |names + {last}| == |names| + 1;
    }
  }

  /** `names.forEach(name => set.add(name))` on the set of the names `base`. */
  method AddEach(set0: seq<string>, names: seq<string>, ghost base: seq<string>) returns (s: seq<string>)
    requires set0 == Dedup(base)
    ensures s == Dedup(base + names)
  {
    s := set0;
    assert base + names[..0] == base;
    for j := 0 to |names|
      invariant s == Dedup(base + names[..j])
    {
      DedupNext(base + names[..j], names[j]);
      if names[j] !in s {
        s := s + [names[j]];
      }
      assert base + names[..j] + [names[j]] == base + names[..j + 1];
    }
    assert names[..|names|] == names;
  }

  /**
   * The `forEach` over the todos that adds every project and every context
   * to its own `Set`: the distinct names in order of first occurrence.
   */
  method CollectNames(todos: seq<TodoItem>) returns (projects: seq<string>, contexts: seq<string>)
    ensures projects == Dedup(AllNames(todos, Projects))
    ensures contexts == Dedup(AllNames(todos, Contexts))
  {
    projects, contexts := [], [];
    for i := 0 to |todos|
      invariant projects == Dedup(AllNames(todos[..i], Projects))
      invariant contexts == Dedup(AllNames(todos[..i], Contexts))
    {
      AllNamesNext(todos, i, Projects);
      AllNamesNext(todos, i, Contexts);
      projects := AddEach(projects, todos[i].projects, AllNames(todos[..i], Projects));
      contexts := AddEach(contexts, todos[i].contexts, AllNames(todos[..i], Contexts));
    }
    assert todos[..|todos|] == todos;
  }
}
