/**
 * The Redux store's two slices. Their reducers change the draft state in
 * place: the todo list is pushed onto, one of its items is updated field by
 * field, or the list is replaced; the filter slice assigns its fields.
 */
module TodosSlice {
  import opened Wrappers
  import opened Strings
  import opened Todo
  import opened TodoView
  import opened Reminders
  import opened App

  /** `todos.find(t => t.id === id)`, as the index of the item found. */
  function FirstWithId(todos: seq<TodoItem>, id: string): (r: Option<nat>)
    ensures r.Some? ==> r.value < |todos| && todos[r.value].id == id
    ensures r.Some? ==> forall k :: 0 <= k < r.value ==> todos[k].id != id
    ensures r.None? ==> forall k :: 0 <= k < |todos| ==> todos[k].id != id
  {
    if |todos| == 0 then None
    else if todos[0].id == id then Some(0)
    else
      match FirstWithId(todos[1..], id)
      case None => None
      case Some(i) => Some(i + 1)
  }

  class TodosState {
    var todos: seq<TodoItem>

    /** `initialState`: no todos. */
    constructor()
      ensures todos == []
    {
      todos := [];
    }

    /** `setTodos`: the list is replaced by the payload. */
    method SetTodos(payload: seq<TodoItem>)
      modifies this
      ensures todos == payload
    {
      todos := payload;
    }

    /** `addTodo`: `state.todos.push(payload)`. */
    method AddTodo(payload: TodoItem)
      modifies this
      ensures todos == old(todos) + [payload]
      ensures |todos| == |old(todos)| + 1 && todos[|todos| - 1] == payload
    {
      todos := todos + [payload];
    }

    /**
     * `updateTodo`: `Object.assign` of the updates into the first item with
     * the id; every other item, and the length, stay as they were.
     */
    method UpdateTodo(id: string, updates: TodoUpdate)
      modifies this
      ensures |todos| == |old(todos)|
      ensures FirstWithId(old(todos), id).None? ==> todos == old(todos)
      ensures FirstWithId(old(todos), id).Some? ==>
        var i := FirstWithId(old(todos), id).value;
        && todos[i] == Merge(old(todos)[i], updates)
        && forall k :: 0 <= k < |todos| && k != i ==> todos[k] == old(todos)[k]
    {
      var found := FirstWithId(todos, id);
      if found.Some? {
        var i := found.value;
        todos := todos[i := Merge(todos[i], updates)];
      }
    }

    /** `deleteTodo`: `state.todos = state.todos.filter(t => t.id !== id)`. */
    method DeleteTodo(id: string)
      modifies this
      ensures todos == Where(old(todos), NotId(id))
      ensures forall t :: t in todos <==> t in old(todos) && t.id != id
    {
      todos := Where(todos, NotId(id));
    }
  }

  /**
   * The slice updates only the first item with the id, the window's own
   * update every item with it: for a list whose ids are distinct the two
   * agree.
   */
  lemma UpdateAgreesWithWindow(todos: seq<TodoItem>, id: string, u: TodoUpdate)
    requires DistinctIds(todos)
    ensures FirstWithId(todos, id).None? ==> UpdatedList(todos, id, u) == todos
    ensures FirstWithId(todos, id).Some? ==>
      var i := FirstWithId(todos, id).value;
      UpdatedList(todos, id, u) == todos[i := Merge(todos[i], u)]
  {
    var r := FirstWithId(todos, id);
    if r.Some? {
      var i := r.value;
      forall k | 0 <= k < |todos| && k != i
        ensures todos[k].id != id
      {
        if k < i {
        } else {
          assert todos[i].id != todos[k].id;
        }
      }
    }
  }

  /**
   * With a repeated id the slice and the window part ways: the slice
   * updates the first item only.
   */
  lemma UpdateWithRepeatedId(t: TodoItem, u: TodoUpdate)
    requires Merge(t, u) != t
    ensures FirstWithId([t, t], t.id) == Some(0)
    ensures UpdatedList([t, t], t.id, u) == [Merge(t, u), Merge(t, u)]
    ensures [t, t][0 := Merge(t, u)] != UpdatedList([t, t], t.id, u)
  {
    assert [t, t][0 := Merge(t, u)][1] == t;
  }

  /** Deleting keeps the other items in order: an absent id changes nothing, and a second delete changes nothing. */
  lemma {:induction false} DeleteFacts(todos: seq<TodoItem>, id: string)
    ensures (forall k :: 0 <= k < |todos| ==> todos[k].id != id) ==> Where(todos, NotId(id)) == todos
    ensures Where(Where(todos, NotId(id)), NotId(id)) == Where(todos, NotId(id))
  {
    if |todos| > 0 {
      DeleteFacts(todos[1..], id);
      var rest := Where(todos[1..], NotId(id));
      if todos[0].id != id {
        assert ([todos[0]] + rest)[1..] == rest;
      }
    }
  }
}

module FilterSlice {
  import opened Todo

  class FilterState {
    var filter: TodoFilter
    var sortField: SortField
    var sortDirection: SortDirection

    /** `initialState`: the empty filter, sorted by text, ascending. */
    constructor()
      ensures filter == NoFilter && sortField == ByText && sortDirection == Ascending
    {
      filter := NoFilter;
      sortField := ByText;
      sortDirection := Ascending;
    }

    /**
     * `setFilter`: the filter is replaced as a whole and the sort is kept;
     * the new state depends on the payload alone, so a repeat changes nothing.
     */
    method SetFilter(payload: TodoFilter)
      modifies this
      ensures filter == payload
      ensures sortField == old(sortField) && sortDirection == old(sortDirection)
    {
      filter := payload;
    }

    /** `setSort`: both sort fields are set and the filter is kept; a repeat changes nothing. */
    method SetSort(field: SortField, direction: SortDirection)
      modifies this
      ensures sortField == field && sortDirection == direction
      ensures filter == old(filter)
    {
      sortField := field;
      sortDirection := direction;
    }
  }
}
