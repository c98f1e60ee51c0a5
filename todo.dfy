/**
 * The records the application passes around: a todo item, its reminder
 * settings, the list filter and the sort selection.
 */
module Todo {
  import opened Wrappers
  import opened Calendar

  /** A todo.txt priority letter, `A` (highest) to `Z`. */
  type Priority = c: char | 'A' <= c <= 'Z' witness 'A'

  /** Reminder settings; `None` stands for an absent optional property. */
  datatype Reminder = Reminder(dateTime: JsDate, message: Option<string>, enabled: bool, notified: Option<bool>)

  /**
   * A string-keyed record (`Record<string, string>`) as its entries in
   * insertion order; keys are distinct.
   */
  type KeyValues = seq<(string, string)>

  datatype TodoItem = TodoItem(
    id: string,
    text: string,
    completed: bool,
    priority: Option<Priority>,
    creationDate: Option<JsDate>,
    completionDate: Option<JsDate>,
    projects: seq<string>,
    contexts: seq<string>,
    keyValuePairs: KeyValues,
    rawText: string,
    reminder: Option<Reminder>)

  datatype TodoFilter = TodoFilter(
    completed: Option<bool>,
    priority: Option<Priority>,
    projects: Option<seq<string>>,
    contexts: Option<seq<string>>,
    searchText: Option<string>)

  /** The empty filter `{}`. */
  const NoFilter := TodoFilter(None, None, None, None, None)

  datatype SortField = ByPriority | ByCreationDate | ByText | ByCompleted
  datatype SortDirection = Ascending | Descending

  /** The item has a reminder that is switched on (`todo.reminder?.enabled`). */
  predicate HasEnabledReminder(t: TodoItem) {
    t.reminder.Some? && t.reminder.value.enabled
  }

  // Records with insertion-ordered keys

  function Keys(kvs: KeyValues): seq<string> {
    if |kvs| == 0 then [] else [kvs[0].0] + Keys(kvs[1..])
  }

  predicate DistinctKeys(kvs: KeyValues) {
    |kvs| == 0 || (Lookup(kvs[1..], kvs[0].0).None? && DistinctKeys(kvs[1..]))
  }

  /** `record[key]` */
  function Lookup(kvs: KeyValues, key: string): Option<string> {
    if |kvs| == 0 then None
    else if kvs[0].0 == key then Some(kvs[0].1)
    else Lookup(kvs[1..], key)
  }

  /** `record[key] = value`: an existing key keeps its place, a new key goes last. */
  function Put(kvs: KeyValues, key: string, value: string): KeyValues {
    if |kvs| == 0 then [(key, value)]
    else if kvs[0].0 == key then [(key, value)] + kvs[1..]
    else [kvs[0]] + Put(kvs[1..], key, value)
  }

  /** After `record[key] = value` the key reads `value`, other keys are unchanged, and a new key is appended. */
  lemma {:induction false} PutSpec(kvs: KeyValues, key: string, value: string)
    ensures Lookup(Put(kvs, key, value), key) == Some(value)
    ensures forall k :: k != key ==> Lookup(Put(kvs, key, value), k) == Lookup(kvs, k)
    ensures Keys(Put(kvs, key, value)) == if Lookup(kvs, key).Some? then Keys(kvs) else Keys(kvs) + [key]
    ensures DistinctKeys(kvs) ==> DistinctKeys(Put(kvs, key, value))
  {
    if |kvs| > 0 && kvs[0].0 != key {
      PutSpec(kvs[1..], key, value);
      var r := Put(kvs, key, value);
      assert r[1..] == Put(kvs[1..], key, value);
    }
  }

  /** Storing `pairs` one after the other into an empty record: a later duplicate key overwrites. */
  function FromPairs(pairs: seq<(string, string)>): KeyValues
    decreases |pairs|
  {
    if |pairs| == 0 then [] else Put(FromPairs(pairs[..|pairs| - 1]), pairs[|pairs| - 1].0, pairs[|pairs| - 1].1)
  }

  /** One more pair is one more `record[key] = value`. */
  lemma FromPairsAppend(pairs: seq<(string, string)>, key: string, value: string)
    ensures FromPairs(pairs + [(key, value)]) == Put(FromPairs(pairs), key, value)
  {
    assert (pairs + [(key, value)])[..|pairs|] == pairs;
  }

  lemma {:induction false} PutNewKey(kvs: KeyValues, key: string, value: string)
    requires Lookup(kvs, key).None?
    ensures Put(kvs, key, value) == kvs + [(key, value)]
  {
    if |kvs| > 0 {
      PutNewKey(kvs[1..], key, value);
      assert kvs == [kvs[0]] + kvs[1..];
    }
  }

  lemma {:induction false} DistinctKeysInit(kvs: KeyValues)
    requires |kvs| > 0 && DistinctKeys(kvs)
    ensures DistinctKeys(kvs[..|kvs| - 1]) && Lookup(kvs[..|kvs| - 1], kvs[|kvs| - 1].0).None?
  {
    if |kvs| > 1 {
      var init := kvs[..|kvs| - 1];
      DistinctKeysInit(kvs[1..]);
      assert kvs[1..][..|kvs[1..]| - 1] == init[1..];
      LookupInMiddle(kvs[1..], kvs[0].0);
      LookupOfEntry(kvs[1..], |kvs| - 2);
      assert init == [kvs[0]] + init[1..];
    }
  }

  lemma {:induction false} LookupOfEntry(kvs: KeyValues, i: nat)
    requires i < |kvs|
    ensures Lookup(kvs, kvs[i].0).Some?
  {
    if i > 0 && kvs[0].0 != kvs[i].0 {
      LookupOfEntry(kvs[1..], i - 1);
    }
  }

  /** A key absent from a record is absent from every prefix of it. */
  lemma {:induction false} LookupInMiddle(kvs: KeyValues, key: string)
    requires |kvs| > 0 && Lookup(kvs, key).None?
    ensures Lookup(kvs[..|kvs| - 1], key).None?
  {
    if |kvs| > 1 {
      LookupInMiddle(kvs[1..], key);
      assert kvs[1..][..|kvs| - 2] == kvs[..|kvs| - 1][1..];
    }
  }

  /** Entries with distinct keys, stored one after the other, give back the same record. */
  lemma {:induction false} FromDistinctPairs(pairs: seq<(string, string)>)
    requires DistinctKeys(pairs)
    ensures FromPairs(pairs) == pairs
    decreases |pairs|
  {
    if |pairs| > 0 {
      var init := pairs[..|pairs| - 1];
      DistinctKeysInit(pairs);
      FromDistinctPairs(init);
      PutNewKey(init, pairs[|pairs| - 1].0, pairs[|pairs| - 1].1);
      assert init + [pairs[|pairs| - 1]] == pairs;
    }
  }

  // Partial updates

  /**
   * `Partial<TodoItem>`: `None` for a key that is absent; for an optional
   * field, `Some(None)` is a key present with the value `undefined`.
   */
  datatype TodoUpdate = TodoUpdate(
    id: Option<string>,
    text: Option<string>,
    completed: Option<bool>,
    priority: Option<Option<Priority>>,
    creationDate: Option<Option<JsDate>>,
    completionDate: Option<Option<JsDate>>,
    projects: Option<seq<string>>,
    contexts: Option<seq<string>>,
    keyValuePairs: Option<KeyValues>,
    rawText: Option<string>,
    reminder: Option<Option<Reminder>>)

  /** `{ ...todo, ...updates }`: each key present in the update replaces the item's. */
  function Merge(t: TodoItem, u: TodoUpdate): TodoItem {
    TodoItem(
      u.id.GetOr(t.id), u.text.GetOr(t.text), u.completed.GetOr(t.completed),
      u.priority.GetOr(t.priority), u.creationDate.GetOr(t.creationDate),
      u.completionDate.GetOr(t.completionDate), u.projects.GetOr(t.projects),
      u.contexts.GetOr(t.contexts), u.keyValuePairs.GetOr(t.keyValuePairs),
      u.rawText.GetOr(t.rawText), u.reminder.GetOr(t.reminder))
  }

  const NoChange := TodoUpdate(None, None, None, None, None, None, None, None, None, None, None)

  /**
   * An update without keys changes nothing, merging the same update twice is
   * merging it once, and each key the update holds replaces the item's while
   * each key it lacks keeps it. For the optional fields a key present with
   * `undefined` (`Some(None)`) clears the field.
   */
  lemma MergeFacts(t: TodoItem, u: TodoUpdate)
    ensures Merge(t, NoChange) == t
    ensures Merge(Merge(t, u), u) == Merge(t, u)
    ensures Merge(t, u).id == (if u.id.Some? then u.id.value else t.id)
    ensures Merge(t, u).text == (if u.text.Some? then u.text.value else t.text)
    ensures Merge(t, u).completed == (if u.completed.Some? then u.completed.value else t.completed)
    ensures Merge(t, u).priority == (if u.priority.Some? then u.priority.value else t.priority)
    ensures u.priority == Some(None) ==> Merge(t, u).priority.None?
    ensures Merge(t, u).creationDate == (if u.creationDate.Some? then u.creationDate.value else t.creationDate)
    ensures u.creationDate == Some(None) ==> Merge(t, u).creationDate.None?
    ensures Merge(t, u).completionDate == (if u.completionDate.Some? then u.completionDate.value else t.completionDate)
    ensures u.completionDate == Some(None) ==> Merge(t, u).completionDate.None?
    ensures Merge(t, u).projects == (if u.projects.Some? then u.projects.value else t.projects)
    ensures Merge(t, u).contexts == (if u.contexts.Some? then u.contexts.value else t.contexts)
    ensures Merge(t, u).keyValuePairs == (if u.keyValuePairs.Some? then u.keyValuePairs.value else t.keyValuePairs)
    ensures Merge(t, u).rawText == (if u.rawText.Some? then u.rawText.value else t.rawText)
    ensures Merge(t, u).reminder == (if u.reminder.Some? then u.reminder.value else t.reminder)
    ensures u.reminder == Some(None) ==> Merge(t, u).reminder.None?
  {
  }

  /** `todo.id !== id` */
  function NotId(id: string): TodoItem -> bool {
    (t: TodoItem) => t.id != id
  }
}
