/**
 Where one task goes in the cached task lists of one scope, given what the server
 said about it (`apps/portal/src/queries/taskPlacement.ts`).
 */
module TaskPlacement {
  import opened Options
  import opened TaskOrder

  /** A page of a list; the cursor names the position of the row the page ended on. */
  datatype Page = Page(items: seq<Task>, next: Option<Task>)

  type Pages = seq<Page>

  datatype Scope = Mine | Team

  /** What the server said: the task as it now is, or that it is gone. */
  datatype Change = Found(task: Task) | Gone(id: string)

  datatype Rules = Rules(scope: Scope, meId: Option<string>, openLimit: nat, doneLimit: nat) {
    function Limit(status: Status): nat {
      if status.OpenTask? then openLimit else doneLimit
    }
  }

  datatype PlaceMode = PlaceMode(optimistic: bool, inPlace: bool)

  const AS_ANSWERED := PlaceMode(false, false)

  datatype Outcome = Unchanged | Inserted | Replaced | Reordered | Removed | Invalidate

  datatype Placement = Placement(data: Option<Pages>, outcome: Outcome)

  datatype Lists = Lists(openTasks: Option<Pages>, doneTasks: Option<Pages>) {
    function Of(status: Status): Option<Pages> {
      if status.OpenTask? then openTasks else doneTasks
    }
  }

  datatype ScopePlacement = ScopePlacement(openTasks: Placement, doneTasks: Placement) {
    function Of(status: Status): Placement {
      if status.OpenTask? then openTasks else doneTasks
    }
  }

  /** The server's rule of who sees a task; undecided in `mine` while the person is not known. */
  function IsVisible(task: Task, scope: Scope, meId: Option<string>): Option<bool> {
    if scope.Team? then Some(true)
    else if meId.None? then None
    else Some(if task.assignee.Some? then task.assignee == meId else task.createdBy == meId.value)
  }

  function BelongsIn(task: Task, status: Status, rules: Rules): Option<bool> {
    if task.deleted || task.archived || task.status != status then Some(false)
    else IsVisible(task, rules.scope, rules.meId)
  }

  function Flatten(data: Pages): seq<Task> {
    if data == [] then [] else data[0].items + Flatten(data[1..])
  }

  /** The whole window on the first page; the others are emptied and keep their cursors. */
  function WithItems(data: Pages, items: seq<Task>): (r: Pages)
    ensures |r| == |data|
    ensures forall i :: 0 <= i < |r| ==> r[i].next == data[i].next
  {
    if data == [] then data
    else [data[0].(items := items)] + Emptied(data[1..])
  }

  function Emptied(data: Pages): (r: Pages)
    ensures |r| == |data|
    ensures forall i :: 0 <= i < |r| ==> r[i] == data[i].(items := [])
  {
    seq(|data|, i requires 0 <= i < |data| => data[i].(items := []))
  }

  predicate HasMore(data: Pages) {
    data != [] && data[|data| - 1].next.Some?
  }

  /** A page's worth of rows per page loaded. */
  function PageWorth(data: Pages, limit: nat): nat {
    |data| * limit
  }

  function IdOf(change: Change): string {
    match change
    case Found(task) => task.id
    case Gone(id) => id
  }

  function Without(items: seq<Task>, id: string): seq<Task> {
    if items == [] then []
    else (if items[0].id == id then [] else [items[0]]) + Without(items[1..], id)
  }

  predicate Holds(items: seq<Task>, id: string) {
    exists i :: 0 <= i < |items| && items[i].id == id
  }

  function Swapped(items: seq<Task>, task: Task): (r: seq<Task>)
    ensures |r| == |items|
  {
    seq(|items|, i requires 0 <= i < |items| => if items[i].id == task.id then task else items[i])
  }

  predicate SameIds(placed: seq<Task>, items: seq<Task>) {
    forall i :: 0 <= i < |placed| ==> i < |items| && placed[i].id == items[i].id
  }

  predicate HoldsVersion(items: seq<Task>, task: Task) {
    exists t :: t in items && t.id == task.id && t.version >= task.version
  }

  predicate HeldAtOrAbove(lists: Lists, task: Task) {
    || (lists.openTasks.Some? && HoldsVersion(Flatten(lists.openTasks.value), task))
    || (lists.doneTasks.Some? && HoldsVersion(Flatten(lists.doneTasks.value), task))
  }

  function PlaceIn(data: Option<Pages>, status: Status, change: Change, rules: Rules, mode: PlaceMode): Placement {
    if data.None? || data.value == [] then Placement(data, Unchanged)
    else
      var pages, id := data.value, IdOf(change);
      var items := Flatten(pages);
      var held := Holds(items, id);
      var more := HasMore(pages);
      var edge := if more && items != [] then Some(items[|items| - 1]) else None;
      var without := if held then Without(items, id) else items;
      var belongs := if change.Found? then BelongsIn(change.task, status, rules) else Some(false);
      if belongs.None? then Placement(data, Invalidate)
      else if edge.Some? && edge.value.id == id
              && !(belongs.value && Compare(status, change.task, edge.value) == 0) then
        // The window's edge moved: only the server knows what now sits between.
        Placement(data, Invalidate)
      else if !belongs.value || (edge.Some? && Compare(status, change.task, edge.value) > 0) then
        if !held then Placement(data, Unchanged)
        else if more && |without| < PageWorth(pages, rules.Limit(status)) then Placement(data, Invalidate)
        else Placement(Some(WithItems(pages, without)), Removed)
      else if held && mode.inPlace then
        Placement(Some(WithItems(pages, Swapped(items, change.task))), Replaced)
      else
        var placed := SortBy(status, without + [change.task]);
        Placement(Some(WithItems(pages, placed)),
                  if !held then Inserted else if SameIds(placed, items) then Replaced else Reordered)
  }

  function PlaceTask(lists: Lists, change: Change, rules: Rules, mode: PlaceMode): ScopePlacement {
    if change.Found? && !mode.optimistic && HeldAtOrAbove(lists, change.task)
    then ScopePlacement(Placement(lists.openTasks, Unchanged), Placement(lists.doneTasks, Unchanged))
    else ScopePlacement(PlaceIn(lists.openTasks, OpenTask, change, rules, mode),
                        PlaceIn(lists.doneTasks, DoneTask, change, rules, mode))
  }

  /** How many rows of a list the page shows. */
  function WindowOf(items: seq<Task>, pagesLoaded: nat, limit: nat, extraPages: nat): seq<Task> {
    var pages := if pagesLoaded + extraPages > 1 then pagesLoaded + extraPages else 1;
    if pages * limit < |items| then items[..pages * limit] else items
  }

  // ------------------------------------------------------------ pages as one list

  lemma {:induction false} FlattenOfEmptied(data: Pages)
    requires forall i :: 0 <= i < |data| ==> data[i].items == []
    ensures Flatten(data) == []
  {
    if data != [] {
      FlattenOfEmptied(data[1..]);
    }
  }

  lemma FlattenOfWithItems(data: Pages, items: seq<Task>)
    requires data != []
    ensures Flatten(WithItems(data, items)) == items
    ensures HasMore(WithItems(data, items)) == HasMore(data)
  {
    var r := WithItems(data, items);
    assert r[1..] == Emptied(data[1..]);
    FlattenOfEmptied(r[1..]);
  }

  lemma {:induction false} FlattenAppend(data: Pages, page: Page)
    ensures Flatten(data + [page]) == Flatten(data) + page.items
  {
    if data == [] {
      assert data + [page] == [page];
      assert Flatten([page]) == page.items + Flatten([]);
    } else {
      assert (data + [page])[1..] == data[1..] + [page];
      FlattenAppend(data[1..], page);
    }
  }

  // ------------------------------------------------------------ taking one id out

  lemma {:induction false} WithoutHolds(items: seq<Task>, id: string)
    ensures forall t :: t in Without(items, id) <==> t in items && t.id != id
  {
    if items != [] {
      WithoutHolds(items[1..], id);
      assert forall t :: t in items <==> t == items[0] || t in items[1..];
    }
  }

  lemma {:induction false} WithoutNothing(items: seq<Task>, id: string)
    requires !Holds(items, id)
    ensures Without(items, id) == items
  {
    if items != [] {
      assert items[0].id != id;
      assert forall i :: 0 <= i < |items[1..]| ==> items[1..][i] == items[i + 1];
      WithoutNothing(items[1..], id);
    }
  }

  lemma {:induction false} WithoutConcat(a: seq<Task>, b: seq<Task>, id: string)
    ensures Without(a + b, id) == Without(a, id) + Without(b, id)
  {
    if a == [] {
      assert a + b == b;
    } else {
      assert (a + b)[1..] == a[1..] + b;
      WithoutConcat(a[1..], b, id);
    }
  }

  lemma {:induction false} WithoutSorted(status: Status, items: seq<Task>, id: string)
    requires Sorted(status, items)
    ensures Sorted(status, Without(items, id))
  {
    hide Before;
    if items != [] {
      WithoutSorted(status, items[1..], id);
      WithoutHolds(items[1..], id);
      var rest := Without(items[1..], id);
      forall i | 0 <= i < |rest|
        ensures Before(status, items[0], rest[i])
      {
        assert rest[i] in items[1..];
      }
    }
  }

  ghost predicate DistinctIds(items: seq<Task>) {
    forall i, j :: 0 <= i < j < |items| ==> items[i].id != items[j].id
  }

  /** With distinct ids taking one out leaves at most one fewer, and the last row last when it is another's. */
  lemma {:induction false} WithoutOne(items: seq<Task>, id: string)
    requires DistinctIds(items)
    ensures |items| - 1 <= |Without(items, id)| <= |items|
    ensures items != [] && items[|items| - 1].id != id ==>
              Without(items, id) != [] && Without(items, id)[|Without(items, id)| - 1] == items[|items| - 1]
  {
    if items != [] {
      WithoutOne(items[1..], id);
      if items[0].id == id {
        assert !Holds(items[1..], id);
        WithoutNothing(items[1..], id);
      }
    }
  }
}
