/**
 What a cached list shows once a read of it lands: for every task placed while the
 read was in flight, the newest answer heard of it, or nothing of it at all.
 */
module TaskLanding {
  import opened Options
  import opened TaskOrder
  import opened TaskPlacement
  import opened TaskCache
  import Ledger
  import PlacementTheorems

  function Rows(data: Option<Pages>): seq<Task> {
    if data.Some? then Flatten(data.value) else []
  }

  function RowsOf(lists: map<ListKey, Query>, key: ListKey): seq<Task> {
    Rows(DataOf(lists, key))
  }

  predicate BeingRead(lists: map<ListKey, Query>, key: ListKey) {
    key in lists && lists[key].fetching
  }

  /** The rows of one task are the same in two states of a list. */
  ghost predicate SameRows(before: map<ListKey, Query>, after: map<ListKey, Query>, key: ListKey, id: string) {
    forall t: Task :: t.id == id ==> (t in RowsOf(after, key) <==> t in RowsOf(before, key))
  }

  /** The lists of a scope hold the task of a change at or past the version it has. */
  predicate HeldAsNew(lists: map<ListKey, Query>, scope: Scope, change: Change) {
    change.Found? && HeldAtOrAbove(ListsOf(lists, scope), change.task)
  }

  ghost predicate ShowsTheChange(rows: seq<Task>, change: Change) {
    forall t :: t in rows && t.id == IdOf(change) ==> change.Found? && t == change.task
  }

  /**
   What a list says of one task once a change to it was placed over the lists `before`:
   the task as answered and nothing else of it, unless the scope's lists already held it
   as new, which leaves its rows alone; or the list is being read again.
   */
  ghost predicate SaysTheChange(before: map<ListKey, Query>, after: map<ListKey, Query>, key: ListKey, change: Change) {
    || BeingRead(after, key)
    || (if HeldAsNew(before, key.scope, change) then SameRows(before, after, key, IdOf(change))
        else ShowsTheChange(RowsOf(after, key), change))
  }

  /** Past the last row of a list with more behind it: not this list's to show. */
  predicate IsPast(data: Option<Pages>, status: Status, task: Task) {
    && data.Some? && HasMore(data.value)
    && var items := Flatten(data.value); items != [] && Compare(status, task, items[|items| - 1]) > 0
  }

  /** A task the list is to show has its row. */
  ghost predicate HoldsItsRow(data: Option<Pages>, rows: seq<Task>, status: Status, change: Change, rules: Rules) {
    (&& data.Some? && data.value != [] && change.Found?
     && BelongsIn(change.task, status, rules) == Some(true) && !IsPast(data, status, change.task)) ==>
      change.task in rows
  }

  // ------------------------------------------------------------ one placement

  lemma {:induction false} SortHolds(status: Status, items: seq<Task>)
    ensures forall t :: t in SortBy(status, items) <==> t in items
  {
    hide Before;
    if items != [] {
      var front, last := items[..|items| - 1], items[|items| - 1];
      SortHolds(status, front);
      InsertHolds(status, last, SortBy(status, front));
      assert items == front + [last];
    }
  }

  /** The rows a placement leaves: those held, those of the other tasks, or the change put among them. */
  ghost predicate IsPlacementOf(
      items: seq<Task>, status: Status, change: Change, mode: PlaceMode, outcome: Outcome, rows: seq<Task>) {
    || (rows == items && (outcome.Invalidate? || !Holds(items, IdOf(change))))
    || rows == Without(items, IdOf(change))
    || (change.Found? && rows == SortBy(status, Without(items, change.task.id) + [change.task]))
    || (change.Found? && mode.inPlace && rows == Swapped(items, change.task))
  }

  lemma PlacementCases(data: Option<Pages>, status: Status, change: Change, rules: Rules, mode: PlaceMode)
    ensures var placement := PlaceIn(data, status, change, rules, mode);
            IsPlacementOf(Rows(data), status, change, mode, placement.outcome, Rows(placement.data))
  {
    hide Flatten, Without, SortBy, WithItems, HasMore, Compare, BelongsIn, Holds, Swapped, IsPlacementOf;
    if data.Some? && data.value != [] {
      PagesCases(data.value, status, change, rules, mode);
    } else {
      NoPages(status, change, mode);
    }
  }

  lemma NoPages(status: Status, change: Change, mode: PlaceMode)
    ensures Flatten([]) == [] && IsPlacementOf([], status, change, mode, Unchanged, [])
  {
  }

  lemma PagesCases(pages: Pages, status: Status, change: Change, rules: Rules, mode: PlaceMode)
    requires pages != []
    ensures var placement := PlaceIn(Some(pages), status, change, rules, mode);
            IsPlacementOf(Flatten(pages), status, change, mode, placement.outcome, Rows(placement.data))
  {
    hide Flatten, Without, SortBy, WithItems, HasMore, Compare, BelongsIn, Holds, Swapped;
    var items, id := Flatten(pages), IdOf(change);
    if !Holds(items, id) {
      WithoutNothing(items, id);
    }
    FlattenOfWithItems(pages, Without(items, id));
    if change.Found? {
      FlattenOfWithItems(pages, SortBy(status, Without(items, id) + [change.task]));
      FlattenOfWithItems(pages, Swapped(items, change.task));
    }
  }

  /** A placement leaves every other task's rows as they were. */
  lemma {:induction false} PlacementTouchesOne(
      data: Option<Pages>, status: Status, change: Change, rules: Rules, mode: PlaceMode)
    ensures forall t: Task :: t.id != IdOf(change) ==>
              (t in Rows(PlaceIn(data, status, change, rules, mode).data) <==> t in Rows(data))
  {
    hide Rows, PlaceIn, Without, SortBy, Swapped;
    PlacementCases(data, status, change, rules, mode);
    var items := Rows(data);
    WithoutHolds(items, IdOf(change));
    if change.Found? {
      SortHolds(status, Without(items, change.task.id) + [change.task]);
      SwappedTouchesOne(items, change.task);
    }
  }

  lemma SwappedTouchesOne(items: seq<Task>, task: Task)
    ensures forall t: Task :: t.id != task.id ==> (t in Swapped(items, task) <==> t in items)
  {
    var r := Swapped(items, task);
    forall t: Task | t.id != task.id
      ensures t in r <==> t in items
    {
      if t in items {
        var i :| 0 <= i < |items| && items[i] == t;
        assert r[i] == t;
      }
    }
  }

  /** A placement that is not left to the server shows every row of its own task as the change has it. */
  lemma {:induction false} PlacementShowsTheChange(
      data: Option<Pages>, status: Status, change: Change, rules: Rules, mode: PlaceMode)
    ensures var placement := PlaceIn(data, status, change, rules, mode);
            placement.outcome.Invalidate? || ShowsTheChange(Rows(placement.data), change)
  {
    hide Rows, PlaceIn, Without, SortBy, Swapped;
    PlacementCases(data, status, change, rules, mode);
    var items := Rows(data);
    WithoutHolds(items, IdOf(change));
    assert !Holds(items, IdOf(change)) ==> forall t :: t in items ==> t.id != IdOf(change);
    if change.Found? {
      SortHolds(status, Without(items, change.task.id) + [change.task]);
      SwappedSays(items, change.task);
    }
  }

  lemma SwappedSays(items: seq<Task>, task: Task)
    ensures forall t :: t in Swapped(items, task) && t.id == task.id ==> t == task
    ensures Holds(items, task.id) ==> task in Swapped(items, task)
  {
    var r := Swapped(items, task);
    if Holds(items, task.id) {
      var i :| 0 <= i < |items| && items[i].id == task.id;
      assert r[i] == task;
    }
  }

  /** And it holds the task where the list is to show it. */
  lemma PlacementHoldsItsRow(data: Option<Pages>, status: Status, change: Change, rules: Rules, mode: PlaceMode)
    ensures var placement := PlaceIn(data, status, change, rules, mode);
            placement.outcome.Invalidate? || HoldsItsRow(data, Rows(placement.data), status, change, rules)
  {
    hide Flatten, Without, SortBy, WithItems, HasMore, Compare, BelongsIn, Holds, Swapped, PageWorth;
    if data.Some? && data.value != [] && change.Found? {
      var items := Flatten(data.value);
      var without := if Holds(items, change.task.id) then Without(items, change.task.id) else items;
      SortHolds(status, without + [change.task]);
      FlattenOfWithItems(data.value, SortBy(status, without + [change.task]));
      SwappedSays(items, change.task);
      FlattenOfWithItems(data.value, Swapped(items, change.task));
    }
  }

  // ------------------------------------------------------------ one change to a scope

  lemma PlaceTaskKeepsData(lists: Lists, change: Change, rules: Rules, mode: PlaceMode, status: Status)
    ensures var placement := TaskPlacement.PlaceTask(lists, change, rules, mode).Of(status);
            placement.outcome.Unchanged? || placement.outcome.Invalidate? ==> placement.data == lists.Of(status)
  {
    hide Flatten, Without, SortBy, WithItems, HasMore, Compare, BelongsIn, Holds, Swapped, HeldAtOrAbove;
  }

  /** One list as a placement leaves it. */
  ghost predicate Written(before: map<ListKey, Query>, after: map<ListKey, Query>, key: ListKey, placement: Placement) {
    && (key !in before ==> key !in after)
    && (key in before ==> && key in after && after[key].data == placement.data
                          && after[key].fetching == (before[key].fetching || placement.outcome.Invalidate?))
  }

  lemma WriteListWrites(s: State, key: ListKey, placement: Placement, id: string, optimistic: bool, other: ListKey)
    requires placement.outcome.Unchanged? || placement.outcome.Invalidate? ==> placement.data == DataOf(s.lists, key)
    ensures var after := WriteList(s, key, placement, id, optimistic).lists;
            && Written(s.lists, after, key, placement)
            && (other != key ==>
                  (other in s.lists <==> other in after) && (other in s.lists ==> after[other] == s.lists[other]))
  {
  }

  /** What a change to a scope writes to its two lists. */
  lemma ScopeWrites(s: State, scope: Scope, change: Change, mode: PlaceMode)
    ensures var placements := TaskPlacement.PlaceTask(ListsOf(s.lists, scope), change, RulesOf(scope, s.me), mode);
            var after := ApplyToScope(s, scope, change, mode).lists;
            && Written(s.lists, after, ListKey(OpenTask, scope), placements.openTasks)
            && Written(s.lists, after, ListKey(DoneTask, scope), placements.doneTasks)
  {
    hide TaskPlacement.PlaceTask, WriteList, Written;
    var lists, rules := ListsOf(s.lists, scope), RulesOf(scope, s.me);
    var placements := TaskPlacement.PlaceTask(lists, change, rules, mode);
    PlaceTaskKeepsData(lists, change, rules, mode, OpenTask);
    PlaceTaskKeepsData(lists, change, rules, mode, DoneTask);
    var o, d := ListKey(OpenTask, scope), ListKey(DoneTask, scope);
    var first := WriteList(s, o, placements.openTasks, IdOf(change), mode.optimistic);
    WriteListWrites(s, o, placements.openTasks, IdOf(change), mode.optimistic, d);
    WriteListWrites(first, d, placements.doneTasks, IdOf(change), mode.optimistic, o);
    WrittenOnly(s.lists, first.lists, WriteList(first, d, placements.doneTasks, IdOf(change), mode.optimistic).lists,
                o, d, placements.openTasks, placements.doneTasks);
  }

  lemma WrittenOnly(a: map<ListKey, Query>, b: map<ListKey, Query>, c: map<ListKey, Query>,
                    o: ListKey, d: ListKey, open: Placement, done: Placement)
    requires o != d && Written(a, b, o, open) && Written(b, c, d, done)
    requires (d in a <==> d in b) && (d in a ==> b[d] == a[d])
    requires (o in b <==> o in c) && (o in b ==> c[o] == b[o])
    ensures Written(a, c, o, open) && Written(a, c, d, done)
  {
  }

  /** What a placement decides for one list of a scope. */
  function OutcomeAt(s: State, key: ListKey, change: Change, mode: PlaceMode): Outcome {
    var lists, rules := ListsOf(s.lists, key.scope), RulesOf(key.scope, s.me);
    TaskPlacement.PlaceTask(lists, change, rules, mode).Of(key.status).outcome
  }

  /** The scope's lists hold the task as new, and the change is an answer: it writes nothing. */
  predicate IsKept(lists: map<ListKey, Query>, scope: Scope, change: Change, mode: PlaceMode) {
    !mode.optimistic && HeldAsNew(lists, scope, change)
  }

  /**
   What a list shows of a change at once, while it is read as well: the task as answered
   and nothing else of it, with its row wherever the list is to show it, unless the
   scope's lists held it as new before; or the placement has the list read again.
   */
  ghost predicate ShownAtOnce(s: State, after: State, key: ListKey, change: Change, mode: PlaceMode) {
    || OutcomeAt(s, key, change, mode).Invalidate?
    || (if IsKept(s.lists, key.scope, change, mode) then SameRows(s.lists, after.lists, key, IdOf(change))
        else && ShowsTheChange(RowsOf(after.lists, key), change)
             && HoldsItsRow(DataOf(s.lists, key), RowsOf(after.lists, key), key.status, change,
                            RulesOf(key.scope, s.me)))
  }

  lemma ScopeShowsAtOnce(s: State, change: Change, key: ListKey, mode: PlaceMode)
    ensures ShownAtOnce(s, ApplyToScope(s, key.scope, change, mode), key, change, mode)
  {
    hide ApplyToScope, PlaceIn, Flatten, HeldAtOrAbove, HoldsItsRow;
    var lists, rules := ListsOf(s.lists, key.scope), RulesOf(key.scope, s.me);
    ScopeWrites(s, key.scope, change, mode);
    PlacementShowsTheChange(lists.Of(key.status), key.status, change, rules, mode);
    PlacementHoldsItsRow(lists.Of(key.status), key.status, change, rules, mode);
    NotCached(s.lists, key, change, rules);
    assert key.status.OpenTask? || key.status.DoneTask?;
  }

  /** A change placed in a scope is what each list of it says, or the list is being read. */
  lemma ScopeSaysTheChange(s: State, change: Change, key: ListKey)
    ensures SaysTheChange(s.lists, ApplyToScope(s, key.scope, change, AS_ANSWERED).lists, key, change)
  {
    hide ApplyToScope, TaskPlacement.PlaceTask, Rows, HeldAtOrAbove, HoldsItsRow;
    ScopeShowsAtOnce(s, change, key, AS_ANSWERED);
    ScopeWrites(s, key.scope, change, AS_ANSWERED);
    NotCachedIsUnchanged(s, change, key, AS_ANSWERED);
    assert key.status.OpenTask? || key.status.DoneTask?;
  }

  lemma NothingIsUnchanged(status: Status, change: Change, rules: Rules, mode: PlaceMode)
    ensures PlaceIn(None, status, change, rules, mode) == Placement(None, Unchanged)
  {
  }

  lemma NotCachedIsUnchanged(s: State, change: Change, key: ListKey, mode: PlaceMode)
    ensures key !in s.lists ==> !OutcomeAt(s, key, change, mode).Invalidate?
  {
    hide HeldAtOrAbove, PlaceIn;
    NothingIsUnchanged(key.status, change, RulesOf(key.scope, s.me), mode);
  }

  lemma NotCached(lists: map<ListKey, Query>, key: ListKey, change: Change, rules: Rules)
    ensures key !in lists ==> RowsOf(lists, key) == [] && HoldsItsRow(DataOf(lists, key), [], key.status, change, rules)
  {
  }

  lemma ScopeKeepsRows(s: State, scope: Scope, change: Change, status: Status)
    ensures var key := ListKey(status, scope);
            var after := ApplyToScope(s, scope, change, AS_ANSWERED).lists;
            && (BeingRead(s.lists, key) ==> BeingRead(after, key))
            && forall t: Task :: t.id != IdOf(change) ==> (t in RowsOf(after, key) <==> t in RowsOf(s.lists, key))
  {
    hide ApplyToScope, PlaceIn, Rows, HeldAtOrAbove;
    var lists, rules := ListsOf(s.lists, scope), RulesOf(scope, s.me);
    ScopeWrites(s, scope, change, AS_ANSWERED);
    PlacementTouchesOne(lists.Of(status), status, change, rules, AS_ANSWERED);
  }

  /** A change to one task leaves the rows of another in both lists. */
  lemma ScopeTouchesOne(s: State, scope: Scope, change: Change, status: Status, id: string)
    requires id != IdOf(change)
    ensures SameRows(s.lists, ApplyToScope(s, scope, change, AS_ANSWERED).lists, ListKey(status, scope), id)
  {
    hide ApplyToScope, RowsOf;
    ScopeKeepsRows(s, scope, change, status);
  }

  // ------------------------------------------------------------ a landing

  /** The rows of one task are the same in both lists of a scope. */
  ghost predicate Untouched(before: map<ListKey, Query>, after: map<ListKey, Query>, scope: Scope, id: string) {
    SameRows(before, after, ListKey(OpenTask, scope), id) && SameRows(before, after, ListKey(DoneTask, scope), id)
  }

  lemma UntouchedHolds(before: map<ListKey, Query>, after: map<ListKey, Query>, scope: Scope, change: Change)
    requires Untouched(before, after, scope, IdOf(change))
    ensures HeldAsNew(before, scope, change) <==> HeldAsNew(after, scope, change)
  {
    hide Flatten;
    if change.Found? {
      var task := change.task;
      HeldInARow(before, scope, task);
      HeldInARow(after, scope, task);
    }
  }

  lemma HeldInARow(lists: map<ListKey, Query>, scope: Scope, task: Task)
    ensures HeldAtOrAbove(ListsOf(lists, scope), task)
       <==> exists t: Task :: t.id == task.id && t.version >= task.version
              && (t in RowsOf(lists, ListKey(OpenTask, scope)) || t in RowsOf(lists, ListKey(DoneTask, scope)))
  {
    hide Flatten;
  }

  ghost predicate Distinct(ids: seq<string>) {
    forall i, j :: 0 <= i < j < |ids| ==> ids[i] != ids[j]
  }

  ghost predicate TasksKeyed(tasks: map<string, Option<Task>>) {
    forall id :: id in tasks && tasks[id].Some? ==> tasks[id].value.id == id
  }

  /** A change said of a list stays said under changes to other tasks. */
  lemma StillSays(start: map<ListKey, Query>, s: State, key: ListKey, change: Change, other: Change)
    requires IdOf(other) != IdOf(change) && SaysTheChange(start, s.lists, key, change)
    ensures SaysTheChange(start, ApplyToScope(s, key.scope, other, AS_ANSWERED).lists, key, change)
  {
    hide ApplyToScope, RowsOf, HeldAsNew;
    ScopeKeepsRows(s, key.scope, other, key.status);
  }

  /** Over lists in which nothing of the task changed since, a placement says the change as it would have then. */
  lemma SaysAsFromTheStart(start: map<ListKey, Query>, s: State, key: ListKey, change: Change)
    requires Untouched(start, s.lists, key.scope, IdOf(change))
    ensures SaysTheChange(start, ApplyToScope(s, key.scope, change, AS_ANSWERED).lists, key, change)
  {
    hide ApplyToScope, RowsOf, HeldAsNew, HoldsItsRow;
    ScopeSaysTheChange(s, change, key);
    UntouchedHolds(start, s.lists, key.scope, change);
    assert key.status.OpenTask? || key.status.DoneTask?;
  }

  lemma NothingTouched(lists: map<ListKey, Query>, scope: Scope, id: string)
    ensures Untouched(lists, lists, scope, id)
  {
    hide RowsOf;
  }

  lemma StillUntouched(start: map<ListKey, Query>, s: State, scope: Scope, change: Change, id: string)
    requires id != IdOf(change) && Untouched(start, s.lists, scope, id)
    ensures Untouched(start, ApplyToScope(s, scope, change, AS_ANSWERED).lists, scope, id)
  {
    hide ApplyToScope, RowsOf;
    ScopeTouchesOne(s, scope, change, OpenTask, id);
    ScopeTouchesOne(s, scope, change, DoneTask, id);
  }

  /** Placed again in turn, every change that waited is said of the list, and no other task is touched. */
  lemma {:induction false} PlaceAgainSays(s: State, key: ListKey, ids: seq<string>)
    requires Distinct(ids) && TasksKeyed(s.tasks)
    ensures forall id :: id in ids && id in s.tasks ==>
              SaysTheChange(s.lists, PlaceAgain(s, key.scope, ids).lists, key, ChangeOf(id, s.tasks[id]))
    ensures forall id :: id !in ids ==> Untouched(s.lists, PlaceAgain(s, key.scope, ids).lists, key.scope, id)
  {
    hide SaysTheChange, ApplyToScope, Untouched;
    if ids == [] {
      forall id
        ensures Untouched(s.lists, PlaceAgain(s, key.scope, ids).lists, key.scope, id)
      {
        NothingTouched(s.lists, key.scope, id);
      }
    } else {
      var front, last := ids[..|ids| - 1], ids[|ids| - 1];
      PlaceAgainSays(s, key, front);
      var before := PlaceAgain(s, key.scope, front);
      AgainKeepsHeard(s, key.scope, front);
      assert ids == front + [last];
      if last in s.tasks {
        var change := ChangeOf(last, s.tasks[last]);
        SaysAsFromTheStart(s.lists, before, key, change);
        forall id | id in front && id in s.tasks
          ensures SaysTheChange(s.lists, ApplyToScope(before, key.scope, change, AS_ANSWERED).lists, key,
                                ChangeOf(id, s.tasks[id]))
        {
          StillSays(s.lists, before, key, ChangeOf(id, s.tasks[id]), change);
        }
        forall id | id !in ids
          ensures Untouched(s.lists, ApplyToScope(before, key.scope, change, AS_ANSWERED).lists, key.scope, id)
        {
          StillUntouched(s.lists, before, key.scope, change, id);
        }
      }
    }
  }

  /** Every change that waits for a read waits once, and was heard. */
  ghost predicate WaitersAreHeard(s: State) {
    forall key :: key in s.pending ==>
      Distinct(s.pending[key]) && forall id :: id in s.pending[key] ==> id in s.tasks
  }

  lemma WriteListWaits(s: State, key: ListKey, placement: Placement, id: string, optimistic: bool)
    requires WaitersAreHeard(s) && (!optimistic ==> id in s.tasks)
    ensures WaitersAreHeard(WriteList(s, key, placement, id, optimistic))
  {
  }

  lemma ScopeWaits(s: State, scope: Scope, change: Change, mode: PlaceMode)
    requires WaitersAreHeard(s) && (!mode.optimistic ==> IdOf(change) in s.tasks)
    ensures WaitersAreHeard(ApplyToScope(s, scope, change, mode))
  {
    hide WriteList, TaskPlacement.PlaceTask, WaitersAreHeard;
    var placements := TaskPlacement.PlaceTask(ListsOf(s.lists, scope), change, RulesOf(scope, s.me), mode);
    var o := ListKey(OpenTask, scope);
    WriteListWaits(s, o, placements.openTasks, IdOf(change), mode.optimistic);
    WriteListKeepsHeard(s, o, placements.openTasks, IdOf(change), mode.optimistic);
    var first := WriteList(s, o, placements.openTasks, IdOf(change), mode.optimistic);
    WriteListWaits(first, ListKey(DoneTask, scope), placements.doneTasks, IdOf(change), mode.optimistic);
  }

  lemma AllWaits(s: State, change: Change, mode: PlaceMode)
    requires WaitersAreHeard(s) && (!mode.optimistic ==> IdOf(change) in s.tasks)
    ensures WaitersAreHeard(ApplyToAll(s, change, mode))
  {
    hide ApplyToScope, WaitersAreHeard;
    ScopeWaits(s, Mine, change, mode);
    ScopeKeepsHeard(s, Mine, change, mode);
    ScopeWaits(ApplyToScope(s, Mine, change, mode), Team, change, mode);
  }

  lemma {:induction false} AgainWaits(s: State, scope: Scope, ids: seq<string>)
    requires WaitersAreHeard(s) && TasksKeyed(s.tasks)
    ensures WaitersAreHeard(PlaceAgain(s, scope, ids))
  {
    hide ApplyToScope, WaitersAreHeard;
    if ids != [] {
      var front, last := ids[..|ids| - 1], ids[|ids| - 1];
      AgainWaits(s, scope, front);
      AgainKeepsHeard(s, scope, front);
      if last in s.tasks {
        ScopeWaits(PlaceAgain(s, scope, front), scope, ChangeOf(last, s.tasks[last]), AS_ANSWERED);
      }
    }
  }

  lemma AdmitWaits(s: State, change: Change, since: Option<nat>, mode: PlaceMode)
    requires WaitersAreHeard(s)
    ensures WaitersAreHeard(Admit(s, change, since, mode))
  {
    hide ApplyToAll, Ledger.Noted, Ledger.IsOlder, Distinct;
    if mode.optimistic {
      AllWaits(s, change, mode);
    } else {
      AllWaits(HeardOf(s, change, since), change, mode);
    }
  }

  /** The state in which an admitted answer is placed. */
  function HeardOf(s: State, change: Change, since: Option<nat>): State {
    var (stamped, stamp) := StampOf(s, since);
    stamped.(heard := Ledger.Noted(s.heard, IdOf(change), AnswerOf(change, stamp)),
             tasks := s.tasks[IdOf(change) := if change.Found? then Some(change.task) else None])
  }

  /** Whether the ledger admits an answer. */
  predicate IsAdmitted(s: State, change: Change, since: Option<nat>) {
    !Ledger.IsOlder(Ledger.LastOf(s.heard, IdOf(change)), AnswerOf(change, StampOf(s, since).1))
  }

  lemma StepWaits(s: State, e: Event)
    requires WaitersAreHeard(s) && Agree(s)
    ensures WaitersAreHeard(Step(s, e))
  {
    hide Admit, PlaceAgain, Distinct;
    match e
    case PlaceAnswer(task, since, mode) => AdmitWaits(s, Found(task), since, mode);
    case RemoveAnswer(id, since, optimistic) => AdmitWaits(s, Gone(id), since, PlaceMode(optimistic, false));
    case ReadLanded(key, data) =>
      if key in s.lists {
        AgainWaits(Received(s, key, data), key.scope, IdsAt(s.pending, key));
      }
    case _ =>
  }

  lemma {:induction false} EveryRunWaits(events: seq<Event>)
    ensures WaitersAreHeard(Run(events))
  {
    hide Step, Agree;
    if events != [] {
      EveryRunWaits(events[..|events| - 1]);
      EveryRunAgrees(events[..|events| - 1]);
      StepWaits(Run(events[..|events| - 1]), events[|events| - 1]);
    }
  }

  /** What the landing of a read leaves of every task that waited for it. */
  ghost predicate AllSaid(landed: State, after: State, key: ListKey, ids: seq<string>) {
    forall id :: id in ids ==>
      id in landed.tasks && SaysTheChange(landed.lists, after.lists, key, ChangeOf(id, landed.tasks[id]))
  }

  /**
   Over every run, whatever a list's read answers: once it lands, the list says of every
   task that waited for it what was last heard, unless the scope's lists, with what just
   landed in them, held the task as new; then its rows are as they landed.
   */
  lemma {:induction false} LandingSaysWhatWaited(events: seq<Event>, key: ListKey, data: Pages)
    requires BeingRead(Run(events).lists, key)
    ensures var s := Run(events);
            AllSaid(Received(s, key, data), Step(s, ReadLanded(key, data)), key, IdsAt(s.pending, key))
  {
    hide PlaceAgain, Run, SaysTheChange, Distinct;
    var s := Run(events);
    EveryRunAgrees(events);
    EveryRunWaits(events);
    NoneWaits();
    PlaceAgainSays(Received(s, key, data), key, IdsAt(s.pending, key));
  }

  lemma NoneWaits()
    ensures Distinct([])
  {
  }

  /** So a task whose newest answer is a removal is not in the list, unless the list is read again. */
  lemma {:induction false} NoRemovedTaskComesBack(events: seq<Event>, key: ListKey, data: Pages, id: string)
    requires BeingRead(Run(events).lists, key)
    requires id in IdsAt(Run(events).pending, key) && id in Run(events).heard && Run(events).heard[id].gone
    ensures var after := Step(Run(events), ReadLanded(key, data)).lists;
            BeingRead(after, key) || forall t :: t in RowsOf(after, key) ==> t.id != id
  {
    hide PlaceAgain, Run, RowsOf;
    LandingSaysWhatWaited(events, key, data);
    EveryRunAgrees(events);
  }

  /** The scope's lists, with what just landed in them, hold the newest heard of a task. */
  predicate HeldWhenLanded(s: State, key: ListKey, data: Pages, id: string)
    requires key in s.lists && id in s.tasks
  {
    HeldAsNew(Received(s, key, data).lists, key.scope, ChangeOf(id, s.tasks[id]))
  }

  /**
   And a row of a task that waited other than the newest heard is in the list after the
   landing exactly when the read answered with it and the scope then held the task as new.
   */
  lemma {:induction false} AStaleRowStaysExactlyWhen(events: seq<Event>, key: ListKey, data: Pages, stale: Task)
    requires BeingRead(Run(events).lists, key) && stale.id in IdsAt(Run(events).pending, key)
    requires !BeingRead(Step(Run(events), ReadLanded(key, data)).lists, key)
    requires stale.id in Run(events).tasks && Run(events).tasks[stale.id] != Some(stale)
    ensures stale in RowsOf(Step(Run(events), ReadLanded(key, data)).lists, key)
       <==> stale in Flatten(data) && HeldWhenLanded(Run(events), key, data, stale.id)
  {
    hide PlaceAgain, Run, HeldAsNew, Flatten;
    LandingSaysWhatWaited(events, key, data);
    EveryRunAgrees(events);
  }

  const OPEN_LIST := ListKey(OpenTask, Team)
  const DONE_LIST := ListKey(DoneTask, Team)

  /** A task while it was open, as an older read saw it, and once it was done. */
  function TaskAt(status: Status, version: nat): Task {
    Task("t", status, "1", version, version, "", None, "u", false, false)
  }

  function OnePage(items: seq<Task>): Pages {
    [Page(items, None)]
  }

  /** Both lists are being read; the done list's read lands with nothing in it. */
  function DoneListLanded(): State {
    Step(Step(Step(EMPTY, ReadStarted(OPEN_LIST)), ReadStarted(DONE_LIST)), ReadLanded(DONE_LIST, OnePage([])))
  }

  /** Then the task is done, and the answer is placed while the open list is still read. */
  function DonePlaced(): State {
    Step(DoneListLanded(), PlaceAnswer(TaskAt(DoneTask, 2), None, AS_ANSWERED))
  }

  lemma DoneListIsEmpty()
    ensures var s := DoneListLanded();
            && s.lists == map[OPEN_LIST := Query(None, true), DONE_LIST := Query(Some(OnePage([])), false)]
            && s.heard == map[] && s.tasks == map[] && s.pending == map[] && s.me == None && s.clock == 0
  {
  }

  lemma NothingMine(lists: map<ListKey, Query>)
    requires lists.Keys == {OPEN_LIST, DONE_LIST}
    ensures ListsOf(lists, Mine) == Lists(None, None)
  {
  }

  lemma PlacedInAnEmptyList(task: Task, rules: Rules)
    requires rules.scope == Team && task.status == DoneTask && !task.deleted && !task.archived
    ensures PlaceIn(Some(OnePage([])), DoneTask, Found(task), rules, AS_ANSWERED)
         == Placement(Some(OnePage([task])), Inserted)
    ensures PlaceIn(None, OpenTask, Found(task), rules, AS_ANSWERED) == Placement(None, Unchanged)
    ensures !HeldAtOrAbove(Lists(None, Some(OnePage([]))), task)
  {
    FlattenOne([]);
    assert [] + [task] == [task] && [task][..0] == [];
    assert SortBy(DoneTask, []) == [] && InsertIn(DoneTask, task, []) == [task] + [];
    assert SortBy(DoneTask, [task]) == [task];
    assert OnePage([])[1..] == [] && Emptied([]) == [];
    assert WithItems(OnePage([]), [task]) == OnePage([task]);
  }

  lemma FlattenOne(items: seq<Task>)
    ensures Flatten(OnePage(items)) == items
  {
    assert OnePage(items)[1..] == [] && Flatten([]) == [];
  }

  /** The done list takes the task in, and the open list has it waiting. */
  lemma DoneIsPlaced()
    ensures var s, task := DonePlaced(), TaskAt(DoneTask, 2);
            && s.lists == map[OPEN_LIST := Query(None, true), DONE_LIST := Query(Some(OnePage([task])), false)]
            && s.tasks == map["t" := Some(task)] && s.pending == map[OPEN_LIST := ["t"]] && s.me == None
  {
    hide PlaceIn, HeldAtOrAbove, DoneListLanded;
    var task, s := TaskAt(DoneTask, 2), DoneListLanded();
    DoneListIsEmpty();
    NothingMine(s.lists);
    PlacedInAnEmptyList(task, RulesOf(Team, None));
    NothingToPlaceIn(Found(task));
    assert [] + ["t"] == ["t"];
  }

  lemma NothingToPlaceIn(change: Change)
    ensures PlaceIn(None, OpenTask, change, RulesOf(Mine, None), AS_ANSWERED) == Placement(None, Unchanged)
    ensures PlaceIn(None, DoneTask, change, RulesOf(Mine, None), AS_ANSWERED) == Placement(None, Unchanged)
    ensures !HeldAtOrAbove(Lists(None, None), TaskAt(DoneTask, 2))
  {
  }

  /** A run that ends with a row of an older version in a list that landed. */
  const STALE_RUN := [
    ReadStarted(OPEN_LIST), ReadStarted(DONE_LIST), ReadLanded(DONE_LIST, OnePage([])),
    PlaceAnswer(TaskAt(DoneTask, 2), None, AS_ANSWERED), ReadLanded(OPEN_LIST, OnePage([TaskAt(OpenTask, 1)]))
  ]

  /** The open list's read answers with the task as it was, and the done list holds it as new. */
  lemma OpenListLands()
    ensures var t := Step(DonePlaced(), ReadLanded(OPEN_LIST, OnePage([TaskAt(OpenTask, 1)])));
            t.lists == map[OPEN_LIST := Query(Some(OnePage([TaskAt(OpenTask, 1)])), false),
                           DONE_LIST := Query(Some(OnePage([TaskAt(DoneTask, 2)])), false)]
            && t.tasks == map["t" := Some(TaskAt(DoneTask, 2))]
  {
    hide PlaceIn, Flatten, DonePlaced;
    var s, v1, v2 := DonePlaced(), TaskAt(OpenTask, 1), TaskAt(DoneTask, 2);
    DoneIsPlaced();
    FlattenOne([v1]);
    FlattenOne([v2]);
    assert v2 in Flatten(OnePage([v2]));
    var landed := Received(s, OPEN_LIST, OnePage([v1]));
    assert HeldAtOrAbove(ListsOf(landed.lists, Team), v2);
    assert ["t"][..0] == [];
    assert PlaceAgain(landed, Team, []) == landed;
    assert PlaceAgain(landed, Team, ["t"]) == ApplyToScope(landed, Team, Found(v2), AS_ANSWERED);
  }

  /**
   It can: in this run the open list ends with the task as it was before it was done, which
   the done list shows, and neither list is to be read again.
   */
  lemma AStaleRowCanStay()
    ensures var t, v1, v2 := Run(STALE_RUN), TaskAt(OpenTask, 1), TaskAt(DoneTask, 2);
            && v1 in RowsOf(t.lists, OPEN_LIST) && v2 in RowsOf(t.lists, DONE_LIST)
            && t.tasks == map["t" := Some(v2)]
            && !BeingRead(t.lists, OPEN_LIST) && !BeingRead(t.lists, DONE_LIST)
  {
    hide Step;
    assert STALE_RUN[..4][..3][..2][..1] == [STALE_RUN[0]] && STALE_RUN[..4][..3][..2] == STALE_RUN[..2];
    assert Run([]) == EMPTY && [STALE_RUN[0]][..0] == [];
    assert Run([STALE_RUN[0]]) == Step(EMPTY, STALE_RUN[0]);
    assert Run(STALE_RUN[..2]) == Step(Run([STALE_RUN[0]]), STALE_RUN[1]);
    assert STALE_RUN[..4][..3] == STALE_RUN[..3] && STALE_RUN[..3][..2] == STALE_RUN[..2];
    assert Run(STALE_RUN[..3]) == DoneListLanded();
    assert Run(STALE_RUN[..4]) == DonePlaced();
    OpenListLands();
    FlattenOne([TaskAt(OpenTask, 1)]);
    FlattenOne([TaskAt(DoneTask, 2)]);
  }

  // ------------------------------------------------------------ what waits for a read

  lemma WriteListPlaces(
      s: State, key: ListKey, placement: Placement, id: string, optimistic: bool, other: ListKey, waiting: string)
    ensures var after := WriteList(s, key, placement, id, optimistic);
            && (waiting in IdsAt(after.pending, key) <==>
                  || waiting in IdsAt(s.pending, key)
                  || (waiting == id && !optimistic && BeingRead(s.lists, key) && !placement.outcome.Invalidate?))
            && (other != key ==> IdsAt(after.pending, other) == IdsAt(s.pending, other)
                                 && DataOf(after.lists, other) == DataOf(s.lists, other)
                                 && BeingRead(after.lists, other) == BeingRead(s.lists, other))
  {
  }

  /** A list of another scope is left; one of this scope has the answer waiting exactly when it is being read. */
  ghost predicate Waits(s: State, after: State, scope: Scope, change: Change, mode: PlaceMode, key: ListKey, id: string)
  {
    && (key.scope == scope ==>
          (id in IdsAt(after.pending, key) <==>
             || id in IdsAt(s.pending, key)
             || (&& id == IdOf(change) && !mode.optimistic && BeingRead(s.lists, key)
                 && !OutcomeAt(s, key, change, mode).Invalidate?)))
    && (key.scope != scope ==> IdsAt(after.pending, key) == IdsAt(s.pending, key)
                               && DataOf(after.lists, key) == DataOf(s.lists, key)
                               && BeingRead(after.lists, key) == BeingRead(s.lists, key))
  }

  lemma ScopePlaces(s: State, scope: Scope, change: Change, mode: PlaceMode, key: ListKey, id: string)
    ensures Waits(s, ApplyToScope(s, scope, change, mode), scope, change, mode, key, id)
  {
    hide WriteList, TaskPlacement.PlaceTask, IdsAt, DataOf, BeingRead;
    var placements := TaskPlacement.PlaceTask(ListsOf(s.lists, scope), change, RulesOf(scope, s.me), mode);
    var o, d, optimistic := ListKey(OpenTask, scope), ListKey(DoneTask, scope), mode.optimistic;
    var first := WriteList(s, o, placements.openTasks, IdOf(change), optimistic);
    WriteListPlaces(s, o, placements.openTasks, IdOf(change), optimistic, d, id);
    WriteListPlaces(s, o, placements.openTasks, IdOf(change), optimistic, key, id);
    WriteListPlaces(first, d, placements.doneTasks, IdOf(change), optimistic, o, id);
    WriteListPlaces(first, d, placements.doneTasks, IdOf(change), optimistic, key, id);
    assert key.status.OpenTask? || key.status.DoneTask?;
  }

  /** After the other scope's lists, a list finds its own scope as it was. */
  lemma TeamAfterMine(s: State, change: Change, mode: PlaceMode, status: Status, id: string)
    ensures var first, key := ApplyToScope(s, Mine, change, mode), ListKey(status, Team);
            && ListsOf(first.lists, Team) == ListsOf(s.lists, Team) && first.me == s.me
            && OutcomeAt(first, key, change, mode) == OutcomeAt(s, key, change, mode)
            && IdsAt(first.pending, key) == IdsAt(s.pending, key)
            && DataOf(first.lists, key) == DataOf(s.lists, key)
            && BeingRead(first.lists, key) == BeingRead(s.lists, key)
  {
    hide ApplyToScope, TaskPlacement.PlaceTask, IdsAt, DataOf, BeingRead;
    ScopePlaces(s, Mine, change, mode, ListKey(OpenTask, Team), id);
    ScopePlaces(s, Mine, change, mode, ListKey(DoneTask, Team), id);
    ScopePlaces(s, Mine, change, mode, ListKey(status, Team), id);
    ScopeKeepsHeard(s, Mine, change, mode);
  }

  lemma AllPlaces(s: State, change: Change, mode: PlaceMode, key: ListKey, id: string)
    ensures id in IdsAt(ApplyToAll(s, change, mode).pending, key) <==>
              || id in IdsAt(s.pending, key)
              || (&& id == IdOf(change) && !mode.optimistic && BeingRead(s.lists, key)
                  && !OutcomeAt(s, key, change, mode).Invalidate?)
  {
    hide ApplyToScope, TaskPlacement.PlaceTask, IdsAt, DataOf, BeingRead, OutcomeAt;
    var first := ApplyToScope(s, Mine, change, mode);
    ScopePlaces(s, Mine, change, mode, key, id);
    TeamAfterMine(s, change, mode, key.status, id);
    ScopePlaces(first, Team, change, mode, key, id);
    assert key.scope.Mine? || key.scope.Team?;
  }

  /**
   A task comes to wait for a list's read exactly when an answer about it is admitted while
   the list is read, unless its placement has the list read again from now; an optimistic
   edit never waits.
   */
  lemma {:induction false} AnAnswerWaitsExactlyWhen(
      s: State, change: Change, since: Option<nat>, mode: PlaceMode, key: ListKey, id: string)
    ensures id in IdsAt(Admit(s, change, since, mode).pending, key) <==>
              || id in IdsAt(s.pending, key)
              || (&& id == IdOf(change) && !mode.optimistic && IsAdmitted(s, change, since)
                  && BeingRead(s.lists, key) && !OutcomeAt(s, key, change, mode).Invalidate?)
  {
    hide ApplyToAll, Ledger.Noted, Ledger.IsOlder, TaskPlacement.PlaceTask, IdsAt;
    if mode.optimistic {
      AllPlaces(s, change, mode, key, id);
    } else {
      AllPlaces(HeardOf(s, change, since), change, mode, key, id);
    }
  }

  /** The event lands the read of a list. */
  predicate Lands(s: State, e: Event, key: ListKey) {
    e.ReadLanded? && e.key == key && BeingRead(s.lists, key)
  }

  lemma WriteListKeepsWaiting(s: State, key: ListKey, placement: Placement, id: string, optimistic: bool, at: ListKey)
    ensures forall other :: other in IdsAt(s.pending, at) ==>
              other in IdsAt(WriteList(s, key, placement, id, optimistic).pending, at)
  {
  }

  lemma ScopeKeepsWaiting(s: State, scope: Scope, change: Change, mode: PlaceMode, at: ListKey)
    ensures forall other :: other in IdsAt(s.pending, at) ==>
              other in IdsAt(ApplyToScope(s, scope, change, mode).pending, at)
  {
    hide WriteList, TaskPlacement.PlaceTask, IdsAt;
    var placements := TaskPlacement.PlaceTask(ListsOf(s.lists, scope), change, RulesOf(scope, s.me), mode);
    var o := ListKey(OpenTask, scope);
    WriteListKeepsWaiting(s, o, placements.openTasks, IdOf(change), mode.optimistic, at);
    var first := WriteList(s, o, placements.openTasks, IdOf(change), mode.optimistic);
    WriteListKeepsWaiting(first, ListKey(DoneTask, scope), placements.doneTasks, IdOf(change), mode.optimistic, at);
  }

  lemma {:induction false} AgainKeepsWaiting(s: State, scope: Scope, ids: seq<string>, at: ListKey)
    ensures forall other :: other in IdsAt(s.pending, at) ==> other in IdsAt(PlaceAgain(s, scope, ids).pending, at)
  {
    hide ApplyToScope, IdsAt;
    if ids != [] {
      var front, last := ids[..|ids| - 1], ids[|ids| - 1];
      AgainKeepsWaiting(s, scope, front, at);
      if last in s.tasks {
        ScopeKeepsWaiting(PlaceAgain(s, scope, front), scope, ChangeOf(last, s.tasks[last]), AS_ANSWERED, at);
      }
    }
  }

  lemma AdmitKeepsWaiting(s: State, change: Change, since: Option<nat>, mode: PlaceMode, at: ListKey)
    ensures forall other :: other in IdsAt(s.pending, at) ==> other in IdsAt(Admit(s, change, since, mode).pending, at)
  {
    hide ApplyToScope, IdsAt, Ledger.Noted, Ledger.IsOlder;
    ScopeKeepsWaiting(s, Mine, change, mode, at);
    ScopeKeepsWaiting(ApplyToScope(s, Mine, change, mode), Team, change, mode, at);
    var heard := HeardOf(s, change, since);
    ScopeKeepsWaiting(heard, Mine, change, mode, at);
    ScopeKeepsWaiting(ApplyToScope(heard, Mine, change, mode), Team, change, mode, at);
  }

  lemma StepKeepsWaiting(s: State, e: Event, key: ListKey, id: string)
    requires id in IdsAt(s.pending, key) && !Lands(s, e, key)
    ensures id in IdsAt(Step(s, e).pending, key)
  {
    hide Admit, PlaceAgain;
    match e
    case PlaceAnswer(task, since, mode) => AdmitKeepsWaiting(s, Found(task), since, mode, key);
    case RemoveAnswer(gone, since, optimistic) =>
      AdmitKeepsWaiting(s, Gone(gone), since, PlaceMode(optimistic, false), key);
    case ReadLanded(other, data) =>
      if other in s.lists {
        AgainKeepsWaiting(Received(s, other, data), other.scope, IdsAt(s.pending, other), key);
      }
    case _ =>
  }

  /** No read of the list lands over this stretch of a run. */
  ghost predicate NoneLands(before: seq<Event>, more: seq<Event>, key: ListKey) {
    more != [] ==>
      var front, e := more[..|more| - 1], more[|more| - 1];
      NoneLands(before, front, key) && !Lands(Run(before + front), e, key)
  }

  /** What waits for a read waits until the read lands, whatever happens meanwhile. */
  lemma {:induction false} WaitsUntilItLands(before: seq<Event>, more: seq<Event>, key: ListKey, id: string)
    requires id in IdsAt(Run(before).pending, key) && NoneLands(before, more, key)
    ensures id in IdsAt(Run(before + more).pending, key)
  {
    hide Step, IdsAt, Lands;
    if more == [] {
      assert before + more == before;
    } else {
      var front, e := more[..|more| - 1], more[|more| - 1];
      WaitsUntilItLands(before, front, key, id);
      var all := before + more;
      assert all[..|all| - 1] == before + front;
      StepKeepsWaiting(Run(before + front), e, key, id);
    }
  }

  // ------------------------------------------------------------ at once

  lemma SameRowsOf(before: map<ListKey, Query>, after: map<ListKey, Query>, key: ListKey)
    requires DataOf(after, key) == DataOf(before, key)
    ensures RowsOf(after, key) == RowsOf(before, key)
  {
    hide DataOf;
  }

  /** A change placed in one scope leaves the other's lists. */
  lemma OtherScopeIsLeft(s: State, scope: Scope, change: Change, mode: PlaceMode, status: Status, other: Scope)
    requires scope != other
    ensures var key := ListKey(status, other);
            var after := ApplyToScope(s, scope, change, mode).lists;
            && DataOf(after, key) == DataOf(s.lists, key) && RowsOf(after, key) == RowsOf(s.lists, key)
            && BeingRead(after, key) == BeingRead(s.lists, key)
  {
    hide ApplyToScope, RowsOf, BeingRead;
    ScopePlaces(s, scope, change, mode, ListKey(status, other), "");
    SameRowsOf(s.lists, ApplyToScope(s, scope, change, mode).lists, ListKey(status, other));
  }

  lemma MineShowsAtOnce(s: State, change: Change, mode: PlaceMode, key: ListKey)
    requires key.scope.Mine?
    ensures ShownAtOnce(s, ApplyToAll(s, change, mode), key, change, mode)
  {
    hide ApplyToScope, HoldsItsRow, RowsOf, DataOf, BeingRead, HeldAsNew, OutcomeAt;
    var first := ApplyToScope(s, Mine, change, mode);
    OtherScopeIsLeft(first, Team, change, mode, key.status, Mine);
    ScopeShowsAtOnce(s, change, key, mode);
  }

  lemma TeamShowsAtOnce(s: State, change: Change, mode: PlaceMode, key: ListKey)
    requires key.scope.Team?
    ensures ShownAtOnce(s, ApplyToAll(s, change, mode), key, change, mode)
  {
    hide ApplyToScope, HoldsItsRow, RowsOf, DataOf, BeingRead, HeldAtOrAbove, TaskPlacement.PlaceTask;
    var first := ApplyToScope(s, Mine, change, mode);
    OtherScopeIsLeft(s, Mine, change, mode, key.status, Team);
    TeamAfterMine(s, change, mode, key.status, "");
    ScopeShowsAtOnce(first, change, key, mode);
  }

  lemma AllShowsAtOnce(s: State, change: Change, mode: PlaceMode, key: ListKey)
    ensures ShownAtOnce(s, ApplyToAll(s, change, mode), key, change, mode)
  {
    hide ApplyToAll, ShownAtOnce;
    if key.scope.Mine? {
      MineShowsAtOnce(s, change, mode, key);
    } else {
      TeamShowsAtOnce(s, change, mode, key);
    }
  }

  /**
   An answer the ledger admits, and any optimistic edit, is at once what every cached list
   says of its task, also while the list is read, with its row wherever the list is to show
   it, unless it is an answer the scope's lists held as new before; or its placement has the
   list read again.
   */
  lemma {:induction false} AnAnswerIsShownAtOnce(
      s: State, change: Change, since: Option<nat>, mode: PlaceMode, key: ListKey)
    requires mode.optimistic || IsAdmitted(s, change, since)
    ensures ShownAtOnce(s, Admit(s, change, since, mode), key, change, mode)
  {
    hide ApplyToAll, Ledger.Noted, Ledger.IsOlder, HoldsItsRow, HeldAsNew, TaskPlacement.PlaceTask;
    AllShowsAtOnce(s, change, mode, key);
    AllShowsAtOnce(HeardOf(s, change, since), change, mode, key);
  }

  // ------------------------------------------------------------ when a list is read

  /** A placement has a list read again exactly when the list has pages and cannot tell what the server now shows. */
  lemma APlacementHasAListReadExactlyWhen(s: State, key: ListKey, change: Change, mode: PlaceMode, person: string)
    requires PlacementTheorems.RulesAgree(RulesOf(key.scope, s.me), key.scope, person)
    requires DistinctIds(RowsOf(s.lists, key))
    ensures var rules, data := RulesOf(key.scope, s.me), DataOf(s.lists, key);
            OutcomeAt(s, key, change, mode).Invalidate? <==>
              && !IsKept(s.lists, key.scope, change, mode) && data.Some? && data.value != []
              && (PlacementTheorems.CannotTell(key.status, change, rules)
                  || PlacementTheorems.EdgeIsInDoubt(
                       key.status, data.value, change, rules.Limit(key.status), key.scope, person))
  {
    hide PlaceIn, HeldAtOrAbove, DistinctIds, PlacementTheorems.CannotTell, PlacementTheorems.EdgeIsInDoubt,
         PlacementTheorems.OutcomeTells;
    var rules, data := RulesOf(key.scope, s.me), DataOf(s.lists, key);
    assert ListsOf(s.lists, key.scope).Of(key.status) == data;
    if data.Some? && data.value != [] {
      PlacementTheorems.AReadIsAskedForExactlyWhen(
        key.status, data.value, change, rules, mode, key.scope, person);
    } else {
      NothingToAskFor(data, key.status, change, rules, mode);
    }
  }

  lemma NothingToAskFor(data: Option<Pages>, status: Status, change: Change, rules: Rules, mode: PlaceMode)
    requires data.None? || data.value == []
    ensures PlaceIn(data, status, change, rules, mode).outcome == Unchanged
  {
  }

  lemma ScopeReads(s: State, scope: Scope, change: Change, mode: PlaceMode, key: ListKey)
    ensures BeingRead(ApplyToScope(s, scope, change, mode).lists, key) <==>
              BeingRead(s.lists, key) || (key.scope == scope && OutcomeAt(s, key, change, mode).Invalidate?)
  {
    hide ApplyToScope, TaskPlacement.PlaceTask, IdsAt, DataOf;
    ScopeWrites(s, scope, change, mode);
    ScopePlaces(s, scope, change, mode, key, "");
    NotCachedIsUnchanged(s, change, key, mode);
    assert key.status.OpenTask? || key.status.DoneTask?;
  }

  lemma AllReads(s: State, change: Change, mode: PlaceMode, key: ListKey)
    ensures BeingRead(ApplyToAll(s, change, mode).lists, key) <==>
              BeingRead(s.lists, key) || OutcomeAt(s, key, change, mode).Invalidate?
  {
    hide ApplyToScope, OutcomeAt, BeingRead, IdsAt, DataOf;
    ScopeReads(s, Mine, change, mode, key);
    TeamAfterMine(s, change, mode, key.status, "");
    ScopeReads(ApplyToScope(s, Mine, change, mode), Team, change, mode, key);
    assert key.scope.Mine? || key.scope.Team?;
  }

  lemma AdmitReads(s: State, change: Change, since: Option<nat>, mode: PlaceMode, key: ListKey)
    ensures BeingRead(Admit(s, change, since, mode).lists, key) <==>
              || BeingRead(s.lists, key)
              || ((mode.optimistic || IsAdmitted(s, change, since)) && OutcomeAt(s, key, change, mode).Invalidate?)
  {
    hide ApplyToAll, Ledger.Noted, Ledger.IsOlder, TaskPlacement.PlaceTask, BeingRead;
    AllReads(s, change, mode, key);
    AllReads(HeardOf(s, change, since), change, mode, key);
  }

  /** Some change placed again has the list read again, in its turn. */
  predicate AskedAgain(s: State, ids: seq<string>, key: ListKey) {
    ids != [] &&
    var front, last := ids[..|ids| - 1], ids[|ids| - 1];
    || AskedAgain(s, front, key)
    || (&& last in s.tasks
        && OutcomeAt(PlaceAgain(s, key.scope, front), key, ChangeOf(last, s.tasks[last]), AS_ANSWERED).Invalidate?)
  }

  lemma {:induction false} AgainReads(s: State, scope: Scope, ids: seq<string>, key: ListKey)
    ensures BeingRead(PlaceAgain(s, scope, ids).lists, key) <==>
              BeingRead(s.lists, key) || (key.scope == scope && AskedAgain(s, ids, key))
  {
    hide ApplyToScope, OutcomeAt, BeingRead;
    if ids != [] {
      var front, last := ids[..|ids| - 1], ids[|ids| - 1];
      AgainReads(s, scope, front, key);
      if last in s.tasks {
        ScopeReads(PlaceAgain(s, scope, front), scope, ChangeOf(last, s.tasks[last]), AS_ANSWERED, key);
      }
    }
  }

  /** What an event places has the list read again. */
  predicate IsAsked(s: State, e: Event, key: ListKey) {
    match e
    case PlaceAnswer(task, since, mode) =>
      (mode.optimistic || IsAdmitted(s, Found(task), since)) && OutcomeAt(s, key, Found(task), mode).Invalidate?
    case RemoveAnswer(id, since, optimistic) =>
      && (optimistic || IsAdmitted(s, Gone(id), since))
      && OutcomeAt(s, key, Gone(id), PlaceMode(optimistic, false)).Invalidate?
    case ReadLanded(landed, data) =>
      && BeingRead(s.lists, landed) && landed.scope == key.scope
      && AskedAgain(Received(s, landed, data), IdsAt(s.pending, landed), key)
    case _ => false
  }

  lemma StepReads(s: State, e: Event, key: ListKey)
    ensures BeingRead(Step(s, e).lists, key) <==>
              || e == ReadStarted(key) || IsAsked(s, e, key)
              || (BeingRead(s.lists, key) && !Lands(s, e, key) && e != ReadFailed(key))
  {
    hide Admit, PlaceAgain, OutcomeAt, AskedAgain, IsAdmitted, IdsAt;
    match e
    case PlaceAnswer(task, since, mode) => AdmitReads(s, Found(task), since, mode, key);
    case RemoveAnswer(id, since, optimistic) => AdmitReads(s, Gone(id), since, PlaceMode(optimistic, false), key);
    case ReadLanded(landed, data) =>
      AgainReads(Received(s, landed, data), landed.scope, IdsAt(s.pending, landed), key);
    case _ =>
  }

  /** A read of the list was issued, or asked for by what was placed, and neither landed nor failed since. */
  predicate ReadIsOut(events: seq<Event>, key: ListKey) {
    events != [] &&
    var front, e := events[..|events| - 1], events[|events| - 1];
    || e == ReadStarted(key) || IsAsked(Run(front), e, key)
    || (ReadIsOut(front, key) && !Lands(Run(front), e, key) && e != ReadFailed(key))
  }

  /** Over every run a list is being read exactly then, and at no other time. */
  lemma {:induction false} AListIsReadExactlyWhen(events: seq<Event>, key: ListKey)
    ensures BeingRead(Run(events).lists, key) <==> ReadIsOut(events, key)
  {
    hide Step, IsAsked, Lands;
    if events != [] {
      var front, e := events[..|events| - 1], events[|events| - 1];
      AListIsReadExactlyWhen(front, key);
      StepReads(Run(front), e, key);
    }
  }

  lemma {:induction false} AgainWaitsOnlyForReads(s: State, scope: Scope, ids: seq<string>, key: ListKey)
    requires !BeingRead(s.lists, key) && IdsAt(s.pending, key) == []
    ensures BeingRead(PlaceAgain(s, scope, ids).lists, key) || IdsAt(PlaceAgain(s, scope, ids).pending, key) == []
  {
    hide ApplyToScope, BeingRead, IdsAt;
    if ids != [] {
      var front, last := ids[..|ids| - 1], ids[|ids| - 1];
      AgainWaitsOnlyForReads(s, scope, front, key);
      if last in s.tasks {
        var before, change := PlaceAgain(s, scope, front), ChangeOf(last, s.tasks[last]);
        ScopeReads(before, scope, change, AS_ANSWERED, key);
        forall id | id in IdsAt(ApplyToScope(before, scope, change, AS_ANSWERED).pending, key)
          ensures id in IdsAt(before.pending, key) || BeingRead(before.lists, key)
        {
          ScopePlaces(before, scope, change, AS_ANSWERED, key, id);
        }
        NoneIsEmpty(IdsAt(ApplyToScope(before, scope, change, AS_ANSWERED).pending, key));
      }
    }
  }

  lemma NoneIsEmpty(ids: seq<string>)
    ensures (forall id :: id !in ids) ==> ids == []
  {
    if ids != [] {
      assert ids[0] in ids;
    }
  }

  /** Once a list's read lands nothing waits for it, unless it is read again. */
  lemma LandingLeavesNoneWaiting(s: State, key: ListKey, data: Pages)
    requires BeingRead(s.lists, key)
    ensures var t := Step(s, ReadLanded(key, data));
            BeingRead(t.lists, key) || IdsAt(t.pending, key) == []
  {
    hide PlaceAgain;
    AgainWaitsOnlyForReads(Received(s, key, data), key.scope, IdsAt(s.pending, key), key);
  }
}
