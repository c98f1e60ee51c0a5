/**
 * The reminder scheduler: a map from todo id to a pending timer, kept in
 * insertion order as JavaScript's `Map` keeps it. Timers are records of what
 * `setTimeout` was given and when it runs them; `Tick(now)` runs every timer
 * due by `now` as the event loop orders them, earliest due first, and each
 * run appends the notification it shows.
 */
module Reminders {
  import opened Wrappers
  import opened Strings
  import opened Calendar
  import opened Todo
  import opened TimeUtils
  import StableSort

  const Title := "Todo Reminder"

  /** Thirty days in milliseconds: the longest delay that is scheduled. */
  const MaxDelay: int := 30 * 24 * 60 * 60 * 1000

  datatype Notification = Notification(title: string, body: string)

  /** A pending `setTimeout`: its handle, the todo its callback captured, and when it runs. */
  datatype Timer = Timer(handle: nat, todo: TodoItem, due: int)

  /** `todo.reminder?.message || todo.text`: an empty message falls back to the text. */
  function NotificationBody(t: TodoItem): (body: string)
    ensures t.reminder.Some? && t.reminder.value.message.Some? && t.reminder.value.message.value != ""
      ==> body == t.reminder.value.message.value
    ensures !(t.reminder.Some? && t.reminder.value.message.Some? && t.reminder.value.message.value != "")
      ==> body == t.text
  {
    if t.reminder.Some? && t.reminder.value.message.Some? && t.reminder.value.message.value != ""
    then t.reminder.value.message.value
    else t.text
  }

  function NotificationFor(t: TodoItem): Notification {
    Notification(Title, NotificationBody(t))
  }

  /** The guards of `scheduleReminder`: switched on, at least five minutes ahead, at most thirty days ahead. */
  predicate Schedules(t: TodoItem, now: int) {
    && HasEnabledReminder(t)
    && IsValidReminderDateTime(t.reminder.value.dateTime, now)
    && t.reminder.value.dateTime.ms - now <= MaxDelay
  }

  /** The longest wait `setTimeout` honours: its delay is a signed 32-bit count of milliseconds. */
  const MaxTimeout: int := 0x7FFF_FFFF

  /**
   * How long a timer given `delay` really waits: `setTimeout` converts the
   * delay to a signed 32-bit integer, wrapping modulo 2^32, and waits no
   * time for a negative one.
   */
  function TimerWait(delay: int): (wait: int)
    ensures 0 <= wait <= MaxTimeout
    ensures 0 <= delay <= MaxTimeout ==> wait == delay
    ensures MaxTimeout < delay < 0x1_0000_0000 ==> wait == 0
  {
    var low := delay % 0x1_0000_0000;
    var signed := if low > MaxTimeout then low - 0x1_0000_0000 else low;
    if signed < 0 then 0 else signed
  }

  /** When the timer set at `now` for the todo's reminder runs. */
  function DueTime(t: TodoItem, now: int): int
    requires t.reminder.Some? && t.reminder.value.dateTime.Time?
  {
    now + TimerWait(t.reminder.value.dateTime.ms - now)
  }

  /**
   * A scheduled reminder runs at its own time when it is at most 2^31 - 1 ms
   * ahead; one further ahead, yet within the thirty days, runs at once.
   */
  lemma DueTimeOfScheduled(t: TodoItem, now: int)
    requires Schedules(t, now)
    ensures t.reminder.value.dateTime.ms - now <= MaxTimeout ==> DueTime(t, now) == t.reminder.value.dateTime.ms
    ensures t.reminder.value.dateTime.ms - now > MaxTimeout ==> DueTime(t, now) == now
  {
  }

  /** A reminder twenty-five days ahead is scheduled, and its timer runs the moment it is set. */
  lemma TwentyFiveDaysRunsAtOnce(t: TodoItem)
    requires HasEnabledReminder(t) && t.reminder.value.dateTime == Time(2160000000)
    ensures Schedules(t, 0) && DueTime(t, 0) == 0
  {
    ValidIsFiveMinutesAhead(t.reminder.value.dateTime, 0);
  }

  /** The guards with the longest delay lowered to what `setTimeout` can wait. */
  predicate SchedulesWithinTimeout(t: TodoItem, now: int) {
    && HasEnabledReminder(t)
    && IsValidReminderDateTime(t.reminder.value.dateTime, now)
    && t.reminder.value.dateTime.ms - now <= MaxTimeout
  }

  /** With the lowered limit every timer set runs exactly at its reminder's time, and is one the thirty-day guard also sets. */
  lemma WithinTimeoutRunsOnTime(t: TodoItem, now: int)
    requires SchedulesWithinTimeout(t, now)
    ensures Schedules(t, now) && DueTime(t, now) == t.reminder.value.dateTime.ms
    ensures DueTime(t, now) >= now + 300000
  {
    ValidIsFiveMinutesAhead(t.reminder.value.dateTime, now);
  }

  /** A reminder exactly thirty days ahead is scheduled; one millisecond more is not. */
  lemma ThirtyDaysIsTheLimit(t: TodoItem, now: int)
    requires HasEnabledReminder(t) && t.reminder.value.dateTime.Time?
    ensures t.reminder.value.dateTime.ms == now + 2592000000 ==> Schedules(t, now)
    ensures t.reminder.value.dateTime.ms == now + 2592000001 ==> !Schedules(t, now)
  {
  }

  // Sequences of ids and timers

  /** The ids not in `gone`, in order. */
  function Without(ids: seq<string>, gone: set<string>): seq<string> {
    if |ids| == 0 then []
    else
      var rest := Without(ids[1..], gone);
      if ids[0] in gone then rest else [ids[0]] + rest
  }

  /** `Without` keeps exactly the ids not in `gone`, and keeps them distinct. */
  lemma {:induction false} WithoutMembers(ids: seq<string>, gone: set<string>)
    ensures forall x :: x in Without(ids, gone) <==> x in ids && x !in gone
    ensures Distinct(ids) ==> Distinct(Without(ids, gone))
  {
    if |ids| > 0 {
      WithoutMembers(ids[1..], gone);
      assert forall x :: x in ids <==> x == ids[0] || x in ids[1..];
    }
  }

  lemma {:induction false} WithoutNothing(ids: seq<string>)
    ensures Without(ids, {}) == ids
  {
    if |ids| > 0 {
      WithoutNothing(ids[1..]);
    }
  }

  lemma {:induction false} WithoutAbsent(ids: seq<string>, x: string)
    requires x !in ids
    ensures Without(ids, {x}) == ids
  {
    if |ids| > 0 {
      WithoutAbsent(ids[1..], x);
    }
  }

  lemma {:induction false} WithoutTwice(ids: seq<string>, a: set<string>, b: set<string>)
    ensures Without(Without(ids, a), b) == Without(ids, a + b)
  {
    if |ids| > 0 {
      WithoutTwice(ids[1..], a, b);
      if ids[0] !in a {
        assert ([ids[0]] + Without(ids[1..], a))[1..] == Without(ids[1..], a);
      }
    }
  }

  /** Timers whose handle is not in `gone`, in order. */
  function Drop(ts: seq<Timer>, gone: set<nat>): (r: seq<Timer>)
    ensures |r| <= |ts|
  {
    if |ts| == 0 then []
    else
      var rest := Drop(ts[1..], gone);
      if ts[0].handle in gone then rest else [ts[0]] + rest
  }

  /** `Drop` keeps exactly the timers whose handle is not in `gone`. */
  lemma {:induction false} DropMembers(ts: seq<Timer>, gone: set<nat>)
    ensures forall t :: t in Drop(ts, gone) <==> t in ts && t.handle !in gone
  {
    if |ts| > 0 {
      DropMembers(ts[1..], gone);
      assert forall t :: t in ts <==> t == ts[0] || t in ts[1..];
    }
  }

  lemma {:induction false} DropNothing(ts: seq<Timer>)
    ensures Drop(ts, {}) == ts
  {
    if |ts| > 0 {
      DropNothing(ts[1..]);
    }
  }

  lemma {:induction false} DropTwice(ts: seq<Timer>, a: set<nat>, b: set<nat>)
    ensures Drop(Drop(ts, a), b) == Drop(ts, a + b)
  {
    if |ts| > 0 {
      DropTwice(ts[1..], a, b);
      if ts[0].handle !in a {
        assert ([ts[0]] + Drop(ts[1..], a))[1..] == Drop(ts[1..], a);
      }
    }
  }

  /** Handles strictly increase along the sequence, as timers set one after another have. */
  predicate Increasing(ts: seq<Timer>) {
    forall i, j :: 0 <= i < j < |ts| ==> ts[i].handle < ts[j].handle
  }

  lemma DropKeepsIncreasing(ts: seq<Timer>, gone: set<nat>)
    requires Increasing(ts)
    ensures Increasing(Drop(ts, gone))
  {
    if |ts| > 0 {
      DropKeepsIncreasing(ts[1..], gone);
      DropMembers(ts[1..], gone);
      var rest := Drop(ts[1..], gone);
      forall j | 0 <= j < |rest| ensures ts[0].handle < rest[j].handle {
        assert rest[j] in ts[1..];
      }
    }
  }

  lemma DropKeepsBelow(ts: seq<Timer>, gone: set<nat>, bound: nat)
    requires forall k :: 0 <= k < |ts| ==> ts[k].handle < bound
    ensures forall k :: 0 <= k < |Drop(ts, gone)| ==> Drop(ts, gone)[k].handle < bound
  {
    var r := Drop(ts, gone);
    DropMembers(ts, gone);
    forall k | 0 <= k < |r| ensures r[k].handle < bound {
      assert r[k] in ts;
    }
  }

  /** Timers due by `now`, in order. */
  function Due(ts: seq<Timer>, now: int): (r: seq<Timer>)
    ensures |r| <= |ts|
  {
    if |ts| == 0 then []
    else
      var rest := Due(ts[1..], now);
      if ts[0].due <= now then [ts[0]] + rest else rest
  }

  /** `Due` keeps exactly the timers due by `now`. */
  lemma {:induction false} DueMembers(ts: seq<Timer>, now: int)
    ensures forall t :: t in Due(ts, now) <==> t in ts && t.due <= now
  {
    if |ts| > 0 {
      DueMembers(ts[1..], now);
      assert forall t :: t in ts <==> t == ts[0] || t in ts[1..];
    }
  }

  lemma {:induction false} DueAppend(xs: seq<Timer>, ys: seq<Timer>, now: int)
    ensures Due(xs + ys, now) == Due(xs, now) + Due(ys, now)
  {
    if |xs| == 0 {
      assert xs + ys == ys;
    } else {
      DueAppend(xs[1..], ys, now);
      var head := if xs[0].due <= now then [xs[0]] else [];
      assert (xs + ys)[0] == xs[0] && (xs + ys)[1..] == xs[1..] + ys;
      calc {
        Due(xs + ys, now);
      == { DueStep(xs + ys, now); }
        head + Due(xs[1..] + ys, now);
      ==
        head + (Due(xs[1..], now) + Due(ys, now));
      == { ConcatAssoc(head, Due(xs[1..], now), Due(ys, now)); }
        head + Due(xs[1..], now) + Due(ys, now);
      == { DueStep(xs, now); }
        Due(xs, now) + Due(ys, now);
      }
    }
  }

  lemma DueStep(ts: seq<Timer>, now: int)
    requires |ts| > 0
    ensures Due(ts, now) == (if ts[0].due <= now then [ts[0]] else []) + Due(ts[1..], now)
  {
  }

  /** Timers not yet due at `now`, in order. */
  function NotDue(ts: seq<Timer>, now: int): (r: seq<Timer>)
    ensures |r| <= |ts|
  {
    if |ts| == 0 then []
    else
      var rest := NotDue(ts[1..], now);
      if ts[0].due > now then [ts[0]] + rest else rest
  }

  /** `NotDue` keeps exactly the timers not yet due at `now`. */
  lemma {:induction false} NotDueMembers(ts: seq<Timer>, now: int)
    ensures forall t :: t in NotDue(ts, now) <==> t in ts && t.due > now
  {
    if |ts| > 0 {
      NotDueMembers(ts[1..], now);
      assert forall t :: t in ts <==> t == ts[0] || t in ts[1..];
    }
  }

  function Handles(ts: seq<Timer>): (r: set<nat>)
    ensures forall t :: t in ts ==> t.handle in r
  {
    if |ts| == 0 then {} else
      assert forall t :: t in ts[1..] ==> t in ts;
      {ts[0].handle} + Handles(ts[1..])
  }

  function TodoIds(ts: seq<Timer>): set<string> {
    if |ts| == 0 then {} else {ts[0].todo.id} + TodoIds(ts[1..])
  }

  lemma IdsAppend(xs: seq<Timer>, ys: seq<Timer>)
    ensures Handles(xs + ys) == Handles(xs) + Handles(ys)
    ensures TodoIds(xs + ys) == TodoIds(xs) + TodoIds(ys)
  {
    HandlesAppend(xs, ys);
    TodoIdsAppend(xs, ys);
  }

  lemma {:induction false} HandlesAppend(xs: seq<Timer>, ys: seq<Timer>)
    ensures Handles(xs + ys) == Handles(xs) + Handles(ys)
  {
    if |xs| == 0 {
      assert xs + ys == ys;
    } else {
      HandlesAppend(xs[1..], ys);
      assert (xs + ys)[0] == xs[0] && (xs + ys)[1..] == xs[1..] + ys;
      var h, a, b := {xs[0].handle}, Handles(xs[1..]), Handles(ys);
      calc {
        Handles(xs + ys);
      == { HandlesStep(xs + ys); }
        h + Handles(xs[1..] + ys);
      ==
        h + (a + b);
      ==
        h + a + b;
      == { HandlesStep(xs); }
        Handles(xs) + b;
      }
    }
  }

  lemma HandlesStep(ts: seq<Timer>)
    requires |ts| > 0
    ensures Handles(ts) == {ts[0].handle} + Handles(ts[1..])
  {
  }

  lemma {:induction false} TodoIdsAppend(xs: seq<Timer>, ys: seq<Timer>)
    ensures TodoIds(xs + ys) == TodoIds(xs) + TodoIds(ys)
  {
    if |xs| == 0 {
      assert xs + ys == ys;
    } else {
      TodoIdsAppend(xs[1..], ys);
      assert (xs + ys)[0] == xs[0] && (xs + ys)[1..] == xs[1..] + ys;
    }
  }

  /** The handles the map holds for `ids`. */
  function HandlesOf(ids: seq<string>, hs: map<string, nat>): set<nat>
    requires forall x :: x in ids ==> x in hs
  {
    if |ids| == 0 then {}
    else HandlesOf(ids[..|ids| - 1], hs) + {hs[ids[|ids| - 1]]}
  }

  /** A handle is collected exactly when the map holds it for one of the ids. */
  lemma {:induction false} HandlesOfMembers(ids: seq<string>, hs: map<string, nat>)
    requires forall x :: x in ids ==> x in hs
    ensures forall v :: v in HandlesOf(ids, hs) <==> exists k :: 0 <= k < |ids| && hs[ids[k]] == v
  {
    if |ids| > 0 {
      var init := ids[..|ids| - 1];
      HandlesOfMembers(init, hs);
      assert forall k :: 0 <= k < |init| ==> init[k] == ids[k];
    }
  }

  function NotificationsFor(ts: seq<Timer>): seq<Notification> {
    if |ts| == 0 then [] else [NotificationFor(ts[0].todo)] + NotificationsFor(ts[1..])
  }

  lemma {:induction false} NotificationsAppend(xs: seq<Timer>, ys: seq<Timer>)
    ensures NotificationsFor(xs + ys) == NotificationsFor(xs) + NotificationsFor(ys)
  {
    if |xs| == 0 {
      assert xs + ys == ys;
    } else {
      NotificationsAppend(xs[1..], ys);
      assert (xs + ys)[1..] == xs[1..] + ys;
    }
  }

  /** The key the event loop orders due timers by: the time they are due. */
  function DueKey(t: Timer): seq<int> {
    [t.due]
  }

  /** The order in which the event loop runs the timers `ts`: by due time, a stable sort. */
  function RunOrder(ts: seq<Timer>): seq<Timer> {
    StableSort.SortBy(ts, DueKey, false)
  }

  /**
   * The due timers run each once, earliest due first, and timers due at the
   * same time run in the order they were set.
   */
  lemma RunOrderFacts(ts: seq<Timer>, now: int)
    ensures multiset(RunOrder(Due(ts, now))) == multiset(Due(ts, now))
    ensures forall i, j :: 0 <= i < j < |RunOrder(Due(ts, now))| ==>
      RunOrder(Due(ts, now))[i].due <= RunOrder(Due(ts, now))[j].due
    ensures forall due :: StableSort.Ties(RunOrder(Due(ts, now)), DueKey, [due]) == StableSort.Ties(Due(ts, now), DueKey, [due])
  {
    var d := Due(ts, now);
    var r := RunOrder(d);
    StableSort.SortBySorted(d, DueKey, false);
    forall i, j | 0 <= i < j < |r| ensures r[i].due <= r[j].due {
      assert StableSort.Compare(DueKey, false, r[i], r[j]) <= 0;
      assert StableSort.LexCompare([r[i].due], [r[j].due]) <= 0;
      assert [r[i].due][1..] == [] == [r[j].due][1..];
    }
    forall due ensures StableSort.Ties(r, DueKey, [due]) == StableSort.Ties(d, DueKey, [due]) {
      StableSort.SortByStable(d, DueKey, false, [due]);
    }
  }

  /** Timers set one after another are pending once each, and only a due one is among the due timers. */
  lemma {:induction false} DueOnce(ts: seq<Timer>, now: int, x: Timer)
    requires Increasing(ts)
    ensures multiset(Due(ts, now))[x] <= 1
  {
    if |ts| > 0 {
      var rest := ts[1..];
      assert Increasing(rest) by {
        forall i, j | 0 <= i < j < |rest| ensures rest[i].handle < rest[j].handle {
          assert rest[i] == ts[i + 1] && rest[j] == ts[j + 1];
        }
      }
      DueOnce(rest, now, x);
      if ts[0].due <= now && x == ts[0] {
        forall j | 0 <= j < |rest| ensures rest[j] != x {
          assert rest[j] == ts[j + 1];
        }
        DueMembers(rest, now);
        assert x !in Due(rest, now);
      }
    }
  }

  /** Timers set one after another are told apart by their handles. */
  lemma SameHandleSameTimer(ts: seq<Timer>, x: Timer, y: Timer)
    requires Increasing(ts) && x in ts && y in ts && x.handle == y.handle
    ensures x == y
  {
    var p :| 0 <= p < |ts| && ts[p] == x;
    var q :| 0 <= q < |ts| && ts[q] == y;
    assert p == q;
  }

  lemma SeenTwice(r: seq<Timer>, i: nat, x: Timer)
    requires i < |r| && r[i] == x && x in r[..i]
    ensures multiset(r)[x] >= 2
  {
    assert r == r[..i] + r[i..];
    assert x in r[i..];
  }

  /** In the run order each timer is a pending one whose handle none of the timers before it has. */
  lemma RunOrderDistinct(ts: seq<Timer>, now: int, i: nat)
    requires Increasing(ts) && i < |RunOrder(Due(ts, now))|
    ensures RunOrder(Due(ts, now))[i] in ts
    ensures RunOrder(Due(ts, now))[i].handle !in Handles(RunOrder(Due(ts, now))[..i])
  {
    var d := Due(ts, now);
    var r := RunOrder(d);
    var x := r[i];
    StableSort.SortBySorted(d, DueKey, false);
    DueMembers(ts, now);
    assert x in multiset(r);
    if x.handle in Handles(r[..i]) {
      HandleOwned(r[..i], x.handle);
      var y :| y in r[..i] && y.handle == x.handle;
      assert y in multiset(r);
      SameHandleSameTimer(ts, x, y);
      SeenTwice(r, i, x);
      DueOnce(ts, now, x);
      assert false;
    }
  }

  /** Every todo id collected belongs to some timer, and every timer's id is collected. */
  lemma {:induction false} TodoIdsMembers(ts: seq<Timer>)
    ensures forall id :: id in TodoIds(ts) <==> exists t :: t in ts && t.todo.id == id
  {
    if |ts| > 0 {
      TodoIdsMembers(ts[1..]);
      assert forall t :: t in ts <==> t == ts[0] || t in ts[1..];
    }
  }

  /** Two runs of the same timers clear the same handles and delete the same ids. */
  lemma IdsOfSameTimers(a: seq<Timer>, b: seq<Timer>)
    requires forall t :: t in a <==> t in b
    ensures Handles(a) == Handles(b) && TodoIds(a) == TodoIds(b)
  {
    forall h | h in Handles(a) ensures h in Handles(b) {
      HandleOwned(a, h);
    }
    forall h | h in Handles(b) ensures h in Handles(a) {
      HandleOwned(b, h);
    }
    TodoIdsMembers(a);
    TodoIdsMembers(b);
  }

  /** Dropping the handles of the due timers leaves the timers not yet due. */
  lemma {:induction false} DropDue(ts: seq<Timer>, now: int)
    requires Increasing(ts)
    ensures Drop(ts, Handles(Due(ts, now))) == NotDue(ts, now)
  {
    if |ts| > 0 {
      var rest := ts[1..];
      DropDue(rest, now);
      var h := ts[0].handle;
      forall t | t in rest ensures t.handle != h {
        var j :| 0 <= j < |rest| && rest[j] == t;
        assert ts[j + 1] == t;
      }
      HandleAbsent(rest, h);
      DueMembers(rest, now);
      HandleAbsent(Due(rest, now), h);
      if ts[0].due <= now {
        assert ([ts[0]] + Due(rest, now))[1..] == Due(rest, now);
        DropIgnoresAbsent(rest, Handles(Due(rest, now)), h);
      }
    }
  }

  /** Every handle collected belongs to some timer. */
  lemma {:induction false} HandleOwned(ts: seq<Timer>, h: nat)
    requires h in Handles(ts)
    ensures exists t :: t in ts && t.handle == h
  {
    if ts[0].handle != h {
      HandleOwned(ts[1..], h);
      var t :| t in ts[1..] && t.handle == h;
      assert t in ts;
    }
  }

  lemma HandleAbsent(ts: seq<Timer>, h: nat)
    requires forall t :: t in ts ==> t.handle != h
    ensures h !in Handles(ts)
  {
    if h in Handles(ts) {
      HandleOwned(ts, h);
    }
  }

  lemma {:induction false} DropIgnoresAbsent(ts: seq<Timer>, gone: set<nat>, h: nat)
    requires h !in Handles(ts)
    ensures Drop(ts, {h} + gone) == Drop(ts, gone)
  {
    if |ts| > 0 {
      assert ts[0] in ts;
      assert Handles(ts[1..]) <= Handles(ts) by {
        forall t | t in ts[1..] ensures t in ts { }
      }
      DropIgnoresAbsent(ts[1..], gone, h);
    }
  }

  lemma {:induction false} DistinctCard(ids: seq<string>)
    requires Distinct(ids)
    ensures |set x | x in ids| == |ids|
  {
    if |ids| > 0 {
      DistinctCard(ids[1..]);
      assert (set x | x in ids) == {ids[0]} + (set x | x in ids[1..]);
      assert ids[0] !in ids[1..];
    }
  }

  lemma IdsOfOne(t: Timer)
    ensures Handles([t]) == {t.handle} && TodoIds([t]) == {t.todo.id}
  {
    assert [t][1..] == [];
  }

  /** The state after running `fired` and then `t` is the state after running `fired + [t]`. */
  lemma FiredStep(t: Timer, pending: seq<Timer>, fired: seq<Timer>,
                  order0: seq<string>, notes0: seq<Notification>, handles0: map<string, nat>)
    ensures Drop(Drop(pending, Handles(fired)), {t.handle}) == Drop(pending, Handles(fired + [t]))
    ensures notes0 + NotificationsFor(fired) + [NotificationFor(t.todo)] == notes0 + NotificationsFor(fired + [t])
    ensures (handles0 - TodoIds(fired)) - {t.todo.id} == handles0 - TodoIds(fired + [t])
    ensures Without(Without(order0, TodoIds(fired)), {t.todo.id}) == Without(order0, TodoIds(fired + [t]))
  {
    FiredTimers(t, pending, fired);
    FiredNotifications(t, fired, notes0);
    FiredIds(t, fired, order0, handles0);
  }

  lemma FiredTimers(t: Timer, pending: seq<Timer>, fired: seq<Timer>)
    ensures Drop(Drop(pending, Handles(fired)), {t.handle}) == Drop(pending, Handles(fired + [t]))
  {
    DropTwice(pending, Handles(fired), {t.handle});
    HandlesAppend(fired, [t]);
    IdsOfOne(t);
  }

  lemma FiredNotifications(t: Timer, fired: seq<Timer>, notes0: seq<Notification>)
    ensures notes0 + NotificationsFor(fired) + [NotificationFor(t.todo)] == notes0 + NotificationsFor(fired + [t])
  {
    NotificationsAppend(fired, [t]);
    assert NotificationsFor([t]) == [NotificationFor(t.todo)] by {
      assert [t][1..] == [];
    }
  }

  lemma FiredIds(t: Timer, fired: seq<Timer>, order0: seq<string>, handles0: map<string, nat>)
    ensures (handles0 - TodoIds(fired)) - {t.todo.id} == handles0 - TodoIds(fired + [t])
    ensures Without(Without(order0, TodoIds(fired)), {t.todo.id}) == Without(order0, TodoIds(fired + [t]))
  {
    WithoutTwice(order0, TodoIds(fired), {t.todo.id});
    TodoIdsAppend(fired, [t]);
    IdsOfOne(t);
  }

  /** One more timer looked at: it joins the due ones if it is due, and the next timer's handle is none of theirs. */
  lemma TickStep(pending: seq<Timer>, i: nat, now: int)
    requires i < |pending| && Increasing(pending)
    ensures Due(pending[..i + 1], now)
      == Due(pending[..i], now) + (if pending[i].due <= now then [pending[i]] else [])
    ensures i + 1 < |pending| ==> pending[i + 1].handle !in Handles(Due(pending[..i + 1], now))
  {
    assert pending[..i + 1] == pending[..i] + [pending[i]];
    DueAppend(pending[..i], [pending[i]], now);
    if i + 1 < |pending| {
      DueMembers(pending[..i + 1], now);
      forall u | u in Due(pending[..i + 1], now) ensures u.handle != pending[i + 1].handle {
        var j :| 0 <= j < i + 1 && pending[..i + 1][j] == u;
        assert pending[j] == u;
      }
      HandleAbsent(Due(pending[..i + 1], now), pending[i + 1].handle);
    }
  }

  lemma HandlesOfNext(ids: seq<string>, hs: map<string, nat>, i: nat)
    requires i < |ids| && forall x :: x in ids ==> x in hs
    ensures HandlesOf(ids[..i + 1], hs) == HandlesOf(ids[..i], hs) + {hs[ids[i]]}
  {
    assert ids[..i + 1][..i] == ids[..i];
  }

  /** The handles held for every key are all the map's values. */
  lemma HandlesOfAll(ids: seq<string>, hs: map<string, nat>)
    requires forall id :: id in hs <==> id in ids
    ensures HandlesOf(ids, hs) == hs.Values
  {
    HandlesOfMembers(ids, hs);
    forall v | v in hs.Values ensures v in HandlesOf(ids, hs) {
      var id :| id in hs && hs[id] == v;
      var j :| 0 <= j < |ids| && ids[j] == id;
    }
  }

  /** Without stale timers, clearing the map's timers leaves nothing pending. */
  lemma ClearedWithoutStale(ts: seq<Timer>, hs: map<string, nat>)
    requires forall t :: t in ts ==> t.todo.id in hs && hs[t.todo.id] == t.handle
    ensures Drop(ts, hs.Values) == []
  {
    forall t | t in ts ensures t.handle in hs.Values {
      assert hs[t.todo.id] == t.handle;
    }
    DropMembers(ts, hs.Values);
  }

  /** Clearing the timer of every key leaves the timers the map does not hold, still increasing and below the next handle. */
  lemma Cleared(before: seq<Timer>, order: seq<string>, hs: map<string, nat>, nextHandle: nat, ts: seq<Timer>)
    requires forall id :: id in hs <==> id in order
    requires Increasing(before) && forall k :: 0 <= k < |before| ==> before[k].handle < nextHandle
    requires ts == Drop(before, HandlesOf(order, hs))
    ensures ts == Drop(before, hs.Values)
    ensures Consistent(Scheduler([], map[], ts, nextHandle))
    ensures StaleFree(Scheduler(order, hs, before, nextHandle)) ==> ts == []
  {
    HandlesOfAll(order, hs);
    if StaleFree(Scheduler(order, hs, before, nextHandle)) {
      ClearedWithoutStale(before, hs);
    }
    DropKeepsIncreasing(before, hs.Values);
    DropKeepsBelow(before, hs.Values, nextHandle);
  }

  /** `clearTimeout` for the handle of each id in `ids`, one after another: the timers left pending. */
  method ClearTimers(ids: seq<string>, hs: map<string, nat>, timers: seq<Timer>) returns (ts: seq<Timer>)
    requires forall x :: x in ids ==> x in hs
    ensures ts == Drop(timers, HandlesOf(ids, hs))
  {
    ts := timers;
    DropNothing(timers);
    assert ids[..0] == [];
    for i := 0 to |ids|
      invariant ts == Drop(timers, HandlesOf(ids[..i], hs))
    {
      var h := hs[ids[i]];
      DropTwice(timers, HandlesOf(ids[..i], hs), {h});
      HandlesOfNext(ids, hs, i);
      ts := Drop(ts, {h});
    }
    assert ids[..|ids|] == ids;
  }

  // The scheduler's state as a value, and `setupReminders` as a fold

  /** What `scheduleReminder` and `setupReminders` change: the map with its key order, the timers and the next handle. */
  datatype Scheduler = Scheduler(order: seq<string>, handles: map<string, nat>, timers: seq<Timer>, nextHandle: nat)

  /** `clearAllReminders()` on the state `s`: every held timer cleared, the map and its order emptied. */
  function ClearedAll(s: Scheduler): (r: Scheduler)
    ensures r.order == [] && r.handles == map[] && r.nextHandle == s.nextHandle
    ensures forall t :: t in r.timers <==> t in s.timers && t.handle !in s.handles.Values
  {
    DropMembers(s.timers, s.handles.Values);
    Scheduler([], map[], Drop(s.timers, s.handles.Values), s.nextHandle)
  }

  /** `scheduleReminder(todo)` on the state `s`. */
  function Scheduled(s: Scheduler, todo: TodoItem, now: int): Scheduler {
    if !Schedules(todo, now) then s
    else Scheduler(
      if todo.id in s.handles then s.order else s.order + [todo.id],
      s.handles[todo.id := s.nextHandle],
      s.timers + [Timer(s.nextHandle, todo, DueTime(todo, now))],
      s.nextHandle + 1)
  }

  /** `todos.forEach(scheduleReminder)` from the state `s`. */
  function ScheduledAll(s: Scheduler, todos: seq<TodoItem>, now: int): Scheduler {
    if |todos| == 0 then s
    else Scheduled(ScheduledAll(s, todos[..|todos| - 1], now), todos[|todos| - 1], now)
  }

  /** The map's keys and the order list name the same ids, each once. */
  ghost predicate KeysInOrder(s: Scheduler) {
    Distinct(s.order) && forall id :: id in s.handles <==> id in s.order
  }

  /** The map and its key order agree, and timers are set in handle order, each before the next handle. */
  ghost predicate Consistent(s: Scheduler) {
    && KeysInOrder(s)
    && Increasing(s.timers)
    && (forall k :: 0 <= k < |s.timers| ==> s.timers[k].handle < s.nextHandle)
  }

  /** Every pending timer is the one the map holds for its todo. */
  predicate StaleFree(s: Scheduler) {
    forall t :: t in s.timers ==> t.todo.id in s.handles && s.handles[t.todo.id] == t.handle
  }

  predicate DistinctIds(todos: seq<TodoItem>) {
    forall i, j :: 0 <= i < j < |todos| ==> todos[i].id != todos[j].id
  }

  /**
   * After scheduling `todos` the active ids are the ones active before and
   * those of the todos whose reminder schedules; each is listed once.
   */
  lemma {:induction false} ScheduledAllIds(s: Scheduler, todos: seq<TodoItem>, now: int)
    requires KeysInOrder(s)
    ensures KeysInOrder(ScheduledAll(s, todos, now))
    ensures forall id :: id in ScheduledAll(s, todos, now).handles <==>
      (id in s.handles || exists k :: 0 <= k < |todos| && Schedules(todos[k], now) && todos[k].id == id)
  {
    if |todos| > 0 {
      var init := todos[..|todos| - 1];
      ScheduledAllIds(s, init, now);
      assert forall k :: 0 <= k < |init| ==> init[k] == todos[k];
    }
  }

  /**
   * Scheduling todos with distinct ids, none of them already active, from a
   * state without stale timers leaves no stale timer.
   */
  lemma {:induction false} ScheduledAllStaleFree(s: Scheduler, todos: seq<TodoItem>, now: int)
    requires KeysInOrder(s) && StaleFree(s) && DistinctIds(todos)
    requires forall k :: 0 <= k < |todos| ==> todos[k].id !in s.handles
    ensures StaleFree(ScheduledAll(s, todos, now))
  {
    if |todos| > 0 {
      var init := todos[..|todos| - 1];
      var last := todos[|todos| - 1];
      ScheduledAllStaleFree(s, init, now);
      ScheduledAllIds(s, init, now);
      var p := ScheduledAll(s, init, now);
      assert last.id !in p.handles;
    }
  }

  /**
   * Scheduling an id that is already active leaves its earlier timer
   * pending while the map forgets it: that timer can no longer be cancelled.
   */
  lemma ScheduledAgainLeaks(s: Scheduler, u: Timer, todo: TodoItem, now: int)
    requires StaleFree(s) && u in s.timers && u.handle < s.nextHandle
    requires u.todo.id == todo.id && Schedules(todo, now)
    ensures u in Scheduled(s, todo, now).timers
    ensures Scheduled(s, todo, now).handles[todo.id] != u.handle
    ensures !StaleFree(Scheduled(s, todo, now))
  {
  }

  // The scheduler

  class ReminderService {
    /** The keys of `activeReminders`, in insertion order. */
    var order: seq<string>
    /** `activeReminders`: todo id to timer handle. */
    var handles: map<string, nat>
    /** Timers set and not yet run or cleared, in the order they were set. */
    var timers: seq<Timer>
    /** The handle the next `setTimeout` returns. */
    var nextHandle: nat
    /** Notifications shown, oldest first. */
    var notifications: seq<Notification>

    ghost predicate Valid()
      reads this
    {
      Consistent(State())
    }

    function State(): Scheduler
      reads this
    {
      Scheduler(order, handles, timers, nextHandle)
    }

    /** No stale timer: every pending timer is the one the map holds for its todo. */
    ghost predicate NoStale()
      reads this
    {
      StaleFree(State())
    }

    constructor()
      ensures Valid() && NoStale()
      ensures order == [] && handles == map[] && timers == [] && notifications == []
    {
      order := [];
      handles := map[];
      timers := [];
      nextHandle := 0;
      notifications := [];
    }

    /**
     * `scheduleReminder(todo)`: nothing unless the reminder is switched on,
     * at least five minutes ahead and at most thirty days ahead; otherwise a
     * timer is set and stored under the todo's id. A timer already stored
     * under that id is not cleared: it stays pending.
     */
    method ScheduleReminder(todo: TodoItem, now: int)
      requires Valid()
      modifies this
      ensures Valid()
      ensures Schedules(todo, now) ==>
        && timers == old(timers) + [Timer(old(nextHandle), todo, DueTime(todo, now))]
        && nextHandle == old(nextHandle) + 1
        && handles == old(handles)[todo.id := old(nextHandle)]
        && order == (if todo.id in old(handles) then old(order) else old(order) + [todo.id])
        && notifications == old(notifications)
      ensures !Schedules(todo, now) ==> unchanged(this)
      ensures State() == Scheduled(old(State()), todo, now)
    {
      if !HasEnabledReminder(todo) {
        return;
      }
      var reminderTime := todo.reminder.value.dateTime;
      if !IsValidReminderDateTime(reminderTime, now) {
        return;
      }
      if reminderTime.ms <= now {
        // The overdue branch that notifies at once: a valid reminder is at least five minutes ahead.
        assert false;
      }
      var delay := reminderTime.ms - now;
      if delay > MaxDelay {
        return;
      }
      var handle := nextHandle;
      var due := now + TimerWait(delay);
      assert due == DueTime(todo, now);
      nextHandle := nextHandle + 1;
      timers := timers + [Timer(handle, todo, due)];
      if todo.id !in handles {
        order := order + [todo.id];
      }
      handles := handles[todo.id := handle];
    }

    /**
     * `setupReminders(todos)`: clears every reminder, then schedules each
     * todo whose reminder is switched on and valid, in list order.
     */
    method SetupReminders(todos: seq<TodoItem>, now: int)
      requires Valid()
      modifies this
      ensures Valid() && notifications == old(notifications)
      ensures State() == ScheduledAll(ClearedAll(old(State())), todos, now)
      ensures forall id :: id in handles <==>
        exists k :: 0 <= k < |todos| && Schedules(todos[k], now) && todos[k].id == id
      ensures old(NoStale()) && DistinctIds(todos) ==> NoStale()
    {
      ghost var wasStaleFree := NoStale();
      ClearAllReminders();
      ghost var s0 := State();
      assert todos[..0] == [];
      for i := 0 to |todos|
        invariant Valid() && notifications == old(notifications)
        invariant State() == ScheduledAll(s0, todos[..i], now)
      {
        var todo := todos[i];
        assert todos[..i + 1][..i] == todos[..i];
        if HasEnabledReminder(todo) && IsValidReminderDateTime(todo.reminder.value.dateTime, now) {
          ScheduleReminder(todo, now);
        }
      }
      assert todos[..|todos|] == todos;
      ScheduledAllIds(s0, todos, now);
      if wasStaleFree && DistinctIds(todos) {
        ScheduledAllStaleFree(s0, todos, now);
      }
    }

    /** `cancelReminder(id)`: clears the timer stored under `id` and forgets it; nothing for an unknown id. */
    method CancelReminder(id: string)
      requires Valid()
      modifies this
      ensures Valid()
      ensures id in old(handles) ==>
        && timers == Drop(old(timers), {old(handles)[id]})
        && (forall t :: t in timers ==> t.handle != old(handles)[id])
        && handles == old(handles) - {id}
        && order == Without(old(order), {id})
        && nextHandle == old(nextHandle) && notifications == old(notifications)
      ensures id !in old(handles) ==> unchanged(this)
    {
      if id in handles {
        DropKeepsIncreasing(timers, {handles[id]});
        DropKeepsBelow(timers, {handles[id]}, nextHandle);
        DropMembers(timers, {handles[id]});
        timers := Drop(timers, {handles[id]});
        handles := handles - {id};
        WithoutMembers(order, {id});
        order := Without(order, {id});
      }
    }

    /** `clearAllReminders()`: clears every timer the map holds, then empties the map. */
    method ClearAllReminders()
      requires Valid()
      modifies this
      ensures Valid()
      ensures timers == Drop(old(timers), old(handles).Values)
      ensures handles == map[] && order == []
      ensures nextHandle == old(nextHandle) && notifications == old(notifications)
      ensures State() == ClearedAll(old(State()))
      ensures old(NoStale()) ==> timers == []
    {
      ghost var wasStaleFree := NoStale();
      ghost var before := timers;
      var ts := ClearTimers(order, handles, timers);
      Cleared(before, order, handles, nextHandle, ts);
      timers, handles, order := ts, map[], [];
    }

    /** A timer runs: the notification is shown, the todo's id is deleted from the map whatever timer it holds. */
    method Fire(t: Timer)
      requires Valid() && t in timers
      modifies this
      ensures Valid()
      ensures notifications == old(notifications) + [NotificationFor(t.todo)]
      ensures timers == Drop(old(timers), {t.handle})
      ensures handles == old(handles) - {t.todo.id} && order == Without(old(order), {t.todo.id})
      ensures nextHandle == old(nextHandle)
    {
      notifications := notifications + [NotificationFor(t.todo)];
      handles := handles - {t.todo.id};
      WithoutMembers(order, {t.todo.id});
      order := Without(order, {t.todo.id});
      DropKeepsIncreasing(timers, {t.handle});
      DropKeepsBelow(timers, {t.handle}, nextHandle);
      timers := Drop(timers, {t.handle});
    }

    /** Runs timer `t` after the timers `fired` of `pending` have run. */
    method FireNext(t: Timer, ghost pending: seq<Timer>, ghost fired: seq<Timer>,
                    ghost order0: seq<string>, ghost notes0: seq<Notification>, ghost handles0: map<string, nat>)
      requires Valid() && t in pending && t.handle !in Handles(fired)
      requires timers == Drop(pending, Handles(fired)) && notifications == notes0 + NotificationsFor(fired)
      requires handles == handles0 - TodoIds(fired) && order == Without(order0, TodoIds(fired))
      modifies this
      ensures Valid() && nextHandle == old(nextHandle)
      ensures timers == Drop(pending, Handles(fired + [t]))
      ensures notifications == notes0 + NotificationsFor(fired + [t])
      ensures handles == handles0 - TodoIds(fired + [t]) && order == Without(order0, TodoIds(fired + [t]))
    {
      FiredStep(t, pending, fired, order0, notes0, handles0);
      DropMembers(pending, Handles(fired));
      Fire(t);
    }

    /**
     * The event loop reaching `now`: every timer due by then runs, earliest
     * due first, and timers due at the same time in the order they were set.
     */
    method Tick(now: int)
      requires Valid()
      modifies this
      ensures Valid()
      ensures timers == NotDue(old(timers), now)
      ensures notifications == old(notifications) + NotificationsFor(RunOrder(Due(old(timers), now)))
      ensures handles == old(handles) - TodoIds(Due(old(timers), now))
      ensures order == Without(old(order), TodoIds(Due(old(timers), now)))
      ensures nextHandle == old(nextHandle)
    {
      var pending := timers;
      var runs := RunOrder(Due(pending, now));
      ghost var fired: seq<Timer> := [];
      assert runs[..0] == [];
      DropNothing(pending);
      WithoutNothing(order);
      for i := 0 to |runs|
        invariant fired == runs[..i]
        invariant Valid() && nextHandle == old(nextHandle)
        invariant timers == Drop(pending, Handles(fired))
        invariant notifications == old(notifications) + NotificationsFor(fired)
        invariant handles == old(handles) - TodoIds(fired)
        invariant order == Without(old(order), TodoIds(fired))
      {
        var t := runs[i];
        RunOrderDistinct(pending, now, i);
        FireNext(t, pending, fired, old(order), old(notifications), old(handles));
        fired := fired + [t];
        assert runs[..i + 1] == runs[..i] + [t];
      }
      assert runs[..|runs|] == runs;
      RunOrderFacts(pending, now);
      assert forall t :: t in runs <==> t in multiset(runs);
      IdsOfSameTimers(runs, Due(pending, now));
      DropDue(pending, now);
    }

    /** `getActiveReminderCount()`: the size of the map. */
    method ActiveReminderCount() returns (n: nat)
      requires Valid()
      ensures n == |handles| && n == |order|
    {
      n := |order|;
      DistinctCard(order);
      assert handles.Keys == set x | x in order;
    }

    /** `getActiveReminderIds()`: the map's keys in insertion order. */
    method ActiveReminderIds() returns (ids: seq<string>)
      requires Valid()
      ensures ids == order
      ensures Distinct(ids) && forall id :: id in ids <==> id in handles
    {
      ids := order;
    }
  }
}
