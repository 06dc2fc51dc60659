/**
 The cached window is always a prefix of the server's list, and every placement
 that does not ask for a read keeps it the prefix up to the same edge.
 */
module PlacementTheorems {
  import opened Options
  import opened TaskOrder
  import opened TaskPlacement

  // ------------------------------------------------------------ the server

  /** The server's tasks by id. */
  type World = map<string, Task>

  ghost predicate Keyed(world: World) {
    forall id :: id in world ==> world[id].id == id
  }

  /** Whether the server shows a task to a person in one list. */
  predicate Shows(task: Task, status: Status, scope: Scope, person: string) {
    && !task.deleted && !task.archived && task.status == status
    && (scope.Team? || (if task.assignee.Some? then task.assignee.value == person else task.createdBy == person))
  }

  /** The server's list: every task it shows there, in order, and nothing else. */
  ghost predicate IsServerList(world: World, status: Status, scope: Scope, person: string, list: seq<Task>) {
    && Sorted(status, list)
    && forall t :: t in list <==> t.id in world && world[t.id] == t && Shows(t, status, scope, person)
  }

  /** The server's tasks once a change is in. */
  function Applied(world: World, change: Change): World {
    match change
    case Found(task) => world[task.id := task]
    case Gone(id) => map other | other in world && other != id :: world[other]
  }

  /** The change says something the server's tasks did not: a newer version, or that the task is gone. */
  ghost predicate IsNews(world: World, change: Change) {
    change.Found? ==> change.task.id !in world || world[change.task.id].version < change.task.version
  }

  /** The server's list once a change is in, from the list before it. */
  function Changed(list: seq<Task>, status: Status, scope: Scope, person: string, change: Change): seq<Task> {
    var without := Without(list, IdOf(change));
    if change.Found? && Shows(change.task, status, scope, person)
    then InsertIn(status, change.task, without) else without
  }

  lemma StaysWithout(world: World, id: string, t: Task)
    requires Keyed(world)
    ensures var after := Applied(world, Gone(id));
            t.id in after && after[t.id] == t <==> t.id in world && world[t.id] == t && t.id != id
  {
  }

  lemma ListWithout(world: World, status: Status, scope: Scope, person: string, list: seq<Task>, id: string)
    requires Keyed(world) && IsServerList(world, status, scope, person, list)
    ensures IsServerList(Applied(world, Gone(id)), status, scope, person, Without(list, id))
  {
    hide Before, Without, Shows, Applied, Keyed, Sorted;
    WithoutHolds(list, id);
    WithoutSorted(status, list, id);
    var after := Applied(world, Gone(id));
    forall t
      ensures t in Without(list, id) <==> t.id in after && after[t.id] == t && Shows(t, status, scope, person)
    {
      StaysWithout(world, id, t);
    }
  }

  lemma ListWith(world: World, status: Status, scope: Scope, person: string, list: seq<Task>, task: Task)
    requires IsServerList(world, status, scope, person, list) && task.id !in world
    ensures IsServerList(world[task.id := task], status, scope, person,
                         if Shows(task, status, scope, person) then InsertIn(status, task, list) else list)
  {
    hide Before, Shows, InsertIn, Sorted;
    InsertHolds(status, task, list);
    assert forall i :: 0 <= i < |list| ==> list[i] in list;
    InsertSorts(status, task, list);
  }

  lemma ServerListChanges(world: World, status: Status, scope: Scope, person: string, list: seq<Task>, change: Change)
    requires Keyed(world) && IsServerList(world, status, scope, person, list)
    ensures Keyed(Applied(world, change))
    ensures IsServerList(Applied(world, change), status, scope, person, Changed(list, status, scope, person, change))
  {
    hide IsServerList, Shows, InsertIn, Without;
    var id := IdOf(change);
    ListWithout(world, status, scope, person, list, id);
    if change.Found? {
      var without := Applied(world, Gone(id));
      ListWith(without, status, scope, person, Without(list, id), change.task);
      assert without[id := change.task] == Applied(world, change);
    }
  }

  lemma ServerListIsUnique(world: World, status: Status, scope: Scope, person: string, a: seq<Task>, b: seq<Task>)
    requires IsServerList(world, status, scope, person, a) && IsServerList(world, status, scope, person, b)
    ensures a == b
  {
    hide Before;
    SortedIsUnique(status, a, b);
  }

  lemma ServerListHasDistinctIds(world: World, status: Status, scope: Scope, person: string, list: seq<Task>)
    requires IsServerList(world, status, scope, person, list)
    ensures DistinctIds(list)
  {
    hide Before, Shows;
    OrderLaws(status);
    forall i, j | 0 <= i < j < |list|
      ensures list[i].id != list[j].id
    {
      assert list[i] in list && list[j] in list;
      assert Before(status, list[i], list[j]);
    }
  }

  // ------------------------------------------------------------ the window

  /** The last page's cursor names the position of the last row held. */
  ghost predicate EdgeIsNamed(status: Status, pages: Pages, items: seq<Task>) {
    HasMore(pages) ==> items != [] && Compare(status, items[|items| - 1], pages[|pages| - 1].next.value) == 0
  }

  /**
   The pages hold exactly the server's list up to the edge their cursor names: all of
   it when there is none. With more behind it a window holds at least a page's worth
   per page loaded.
   */
  ghost predicate Reflects(status: Status, pages: Pages, list: seq<Task>, limit: nat) {
    var items := Flatten(pages);
    && pages != []
    && |items| <= |list| && items == list[..|items|]
    && (!HasMore(pages) ==> items == list)
    && (HasMore(pages) ==> |items| >= |pages| * limit)
    && EdgeIsNamed(status, pages, items)
  }

  /** What taking an id out and putting a task in does to a list cut at an edge. */
  lemma ChangeCutAtTheEdge(status: Status, a: seq<Task>, b: seq<Task>, id: string)
    requires Sorted(status, a + b) && DistinctIds(a + b)
    ensures Without(a + b, id) == Without(a, id) + Without(b, id)
    ensures |Without(a, id)| >= |a| - 1
    ensures a != [] && a[|a| - 1].id != id ==>
              Without(a, id) != [] && Without(a, id)[|Without(a, id)| - 1] == a[|a| - 1]
    ensures forall x :: x in Without(b, id) ==> x in b
    ensures forall x :: x in Without(a, id) ==> x in a
  {
    hide Before, Sorted, Without;
    WithoutConcat(a, b, id);
    assert forall i, j :: 0 <= i < j < |a| ==> (a + b)[i] == a[i] && (a + b)[j] == a[j];
    WithoutOne(a, id);
    WithoutHolds(a, id);
    WithoutHolds(b, id);
  }

  /** A task at or before the edge is before everything behind it. */
  lemma BeforeTheEdge(status: Status, a: seq<Task>, b: seq<Task>, t: Task)
    requires Sorted(status, a + b) && a != []
    requires Compare(status, t, a[|a| - 1]) <= 0
    ensures forall x :: x in b ==> Before(status, t, x)
  {
    hide Compare, Before;
    var edge := a[|a| - 1];
    CompareIsLexicographic(status, t, edge);
    forall x | x in b
      ensures Before(status, t, x)
    {
      var i :| 0 <= i < |b| && b[i] == x;
      assert (a + b)[|a| - 1] == edge && (a + b)[|a| + i] == x;
      assert Before(status, edge, x);
      OrderIsTotal(status, edge, x);
      BeforeIsTransitive(status, t, edge, x);
    }
  }

  /** A task past the edge is before nothing up to it. */
  lemma PastTheEdge(status: Status, a: seq<Task>, t: Task)
    requires Sorted(status, a) && a != []
    requires Compare(status, t, a[|a| - 1]) > 0
    ensures forall x :: x in a ==> !Before(status, t, x)
  {
    hide Compare, Before;
    var edge := a[|a| - 1];
    CompareIsLexicographic(status, t, edge);
    OrderIsTotal(status, edge, t);
    forall x | x in a
      ensures !Before(status, t, x)
    {
      var i :| 0 <= i < |a| && a[i] == x;
      if x != edge {
        assert Before(status, x, edge);
        OrderIsTotal(status, x, edge);
      } else {
        OrderIsTotal(status, edge, edge);
      }
      BeforeIsTransitive(status, x, edge, t);
    }
  }

  /** A list cut at the window's edge, and what the change makes of both halves. */
  ghost predicate Cut(status: Status, pages: Pages, items: seq<Task>, rest: seq<Task>, limit: nat) {
    && pages != [] && items == Flatten(pages)
    && Sorted(status, items + rest) && DistinctIds(items + rest)
    && (!HasMore(pages) ==> rest == [])
    && (HasMore(pages) ==> |items| >= |pages| * limit)
    && EdgeIsNamed(status, pages, items)
  }

  /** The window keeps fewer rows, its edge among them; what follows it follows still. */
  lemma RemovalReflects(
      status: Status, pages: Pages, items: seq<Task>, rest: seq<Task>, tail: seq<Task>, limit: nat, id: string)
    requires Cut(status, pages, items, rest, limit) && (!HasMore(pages) ==> tail == [])
    requires HasMore(pages) ==> items[|items| - 1].id != id && |Without(items, id)| >= |pages| * limit
    ensures Reflects(status, WithItems(pages, Without(items, id)), Without(items, id) + tail, limit)
  {
    hide Before, Compare, Without, Flatten, WithItems, Sorted, DistinctIds;
    ChangeCutAtTheEdge(status, items, rest, id);
    FlattenOfWithItems(pages, Without(items, id));
  }

  /** The window is as it was, and so is what its edge names. */
  lemma UnchangedReflects(status: Status, pages: Pages, items: seq<Task>, rest: seq<Task>, tail: seq<Task>, limit: nat)
    requires Cut(status, pages, items, rest, limit) && (!HasMore(pages) ==> tail == [])
    ensures Reflects(status, pages, items + tail, limit)
  {
    hide Before, Compare, Flatten, Sorted, DistinctIds;
  }

  /** A task at the edge's own position takes the edge's place. */
  lemma NewEdge(status: Status, items: seq<Task>, rest: seq<Task>, task: Task)
    requires Sorted(status, items + rest) && DistinctIds(items + rest) && items != []
    requires Compare(status, task, items[|items| - 1]) == 0
    ensures InsertIn(status, task, Without(items, task.id)) == Without(items, task.id) + [task]
  {
    hide Compare, Before, Without, InsertIn;
    var edge := items[|items| - 1];
    var without := Without(items, task.id);
    CompareIsLexicographic(status, task, edge);
    WithoutHolds(items, task.id);
    forall i | 0 <= i < |without|
      ensures !Before(status, task, without[i])
    {
      var x := without[i];
      assert x in items;
      var k :| 0 <= k < |items| && items[k] == x;
      assert (items + rest)[k] == x && (items + rest)[|items| - 1] == edge;
      assert k < |items| - 1;
      assert Before(status, x, edge);
      CompareIsLexicographic(status, x, edge);
      CompareIsLexicographic(status, edge, x);
      CompareIsLexicographic(status, task, x);
      OrderIsTotal(status, x, edge);
    }
    InsertAfterAll(status, task, without);
  }

  /** The row that ends the window after an insertion stands where the cursor says. */
  lemma InsertionKeepsTheEdge(status: Status, pages: Pages, items: seq<Task>, rest: seq<Task>, limit: nat, task: Task)
    requires Cut(status, pages, items, rest, limit) && HasMore(pages)
    requires Compare(status, task, items[|items| - 1]) <= 0
    requires items[|items| - 1].id == task.id ==> Compare(status, task, items[|items| - 1]) == 0
    ensures var placed := InsertIn(status, task, Without(items, task.id));
            && placed != [] && Compare(status, placed[|placed| - 1], pages[|pages| - 1].next.value) == 0
  {
    hide Before, Compare, Without, Flatten, InsertIn;
    var edge := items[|items| - 1];
    var cursor := pages[|pages| - 1].next.value;
    CompareIsLexicographic(status, task, edge);
    CompareIsLexicographic(status, edge, cursor);
    CompareIsLexicographic(status, task, cursor);
    if edge.id == task.id {
      NewEdge(status, items, rest, task);
    } else {
      CompareIsLexicographic(status, edge, task);
      ChangeCutAtTheEdge(status, items, rest, task.id);
      IsBefore(status, task, edge);
      InsertBeforeLast(status, task, Without(items, task.id));
    }
  }

  lemma IsBefore(status: Status, a: Task, b: Task)
    requires Compare(status, a, b) < 0
    ensures Before(status, a, b)
  {
  }

  /** The window takes the task in its place; what follows the edge follows it still. */
  lemma InsertionReflects(status: Status, pages: Pages, items: seq<Task>, rest: seq<Task>, limit: nat, task: Task)
    requires Cut(status, pages, items, rest, limit)
    requires HasMore(pages) ==>
               && Compare(status, task, items[|items| - 1]) <= 0
               && (items[|items| - 1].id == task.id ==> Compare(status, task, items[|items| - 1]) == 0)
    ensures var placed := InsertIn(status, task, Without(items, task.id));
            Reflects(status, WithItems(pages, placed), placed + Without(rest, task.id), limit)
  {
    hide Before, Compare, Without, Flatten, WithItems, Sorted, DistinctIds, InsertIn;
    var placed := InsertIn(status, task, Without(items, task.id));
    ChangeCutAtTheEdge(status, items, rest, task.id);
    FlattenOfWithItems(pages, placed);
    WithoutNone(task.id);
    if HasMore(pages) {
      InsertionKeepsTheEdge(status, pages, items, rest, limit, task);
    }
  }

  lemma WithoutNone(id: string)
    ensures Without([], id) == []
  {
  }

  /** Sorting the window with the task added puts the task in its place. */
  lemma SortedIsInserted(status: Status, items: seq<Task>, task: Task)
    requires Sorted(status, items)
    ensures SortBy(status, Without(items, task.id) + [task]) == InsertIn(status, task, Without(items, task.id))
  {
    hide Before, InsertIn, Sorted;
    var without := Without(items, task.id);
    WithoutSorted(status, items, task.id);
    SortOfSorted(status, without);
    assert (without + [task])[..|without|] == without;
  }

  /** What the changed list is, cut at the same edge: the three places a wanted task can go. */
  lemma ChangedCut(status: Status, items: seq<Task>, rest: seq<Task>, task: Task)
    requires Sorted(status, items + rest) && DistinctIds(items + rest)
    ensures rest == [] || (items != [] && Compare(status, task, items[|items| - 1]) <= 0) ==>
              InsertIn(status, task, Without(items + rest, task.id))
              == InsertIn(status, task, Without(items, task.id)) + Without(rest, task.id)
    ensures items != [] && Compare(status, task, items[|items| - 1]) > 0 ==>
              InsertIn(status, task, Without(items + rest, task.id))
              == Without(items, task.id) + InsertIn(status, task, Without(rest, task.id))
  {
    hide Before, Compare, Without, InsertIn;
    var a, b := Without(items, task.id), Without(rest, task.id);
    ChangeCutAtTheEdge(status, items, rest, task.id);
    if items != [] && Compare(status, task, items[|items| - 1]) > 0 {
      SortedFront(status, items, rest);
      PastTheEdge(status, items, task);
      InsertAmongLast(status, task, a, b);
    }
    if rest == [] {
      WithoutNone(task.id);
      InsertAmongFirst(status, task, a, b);
    } else if items != [] && Compare(status, task, items[|items| - 1]) <= 0 {
      BeforeTheEdge(status, items, rest, task);
      InsertAmongFirst(status, task, a, b);
    }
  }

  lemma SortedFront(status: Status, items: seq<Task>, rest: seq<Task>)
    requires Sorted(status, items + rest)
    ensures Sorted(status, items)
  {
    hide Before;
    assert forall i :: 0 <= i < |items| ==> (items + rest)[i] == items[i];
  }

  /** The page's rules are the server's, for the person the page is for. */
  ghost predicate RulesAgree(rules: Rules, scope: Scope, person: string) {
    rules.scope == scope && (rules.meId.None? || rules.meId.value == person)
  }

  lemma BelongsIsShown(task: Task, status: Status, rules: Rules, scope: Scope, person: string)
    requires RulesAgree(rules, scope, person)
    ensures BelongsIn(task, status, rules).Some? ==>
              BelongsIn(task, status, rules).value == Shows(task, status, scope, person)
  {
  }

  /** Whether a task the server shows in this list sorts past the window's edge. */
  predicate IsPastTheEdge(status: Status, pages: Pages, items: seq<Task>, task: Task) {
    HasMore(pages) && items != [] && Compare(status, task, items[|items| - 1]) > 0
  }

  /** A change that leaves no row in the window: gone, not shown here, or past the edge. */
  lemma NotHereRefines(
      status: Status, pages: Pages, items: seq<Task>, rest: seq<Task>, tail: seq<Task>, change: Change,
      rules: Rules)
    requires Cut(status, pages, items, rest, rules.Limit(status)) && (!HasMore(pages) ==> tail == [])
    requires change.Found? ==>
               || BelongsIn(change.task, status, rules) == Some(false)
               || (&& BelongsIn(change.task, status, rules) == Some(true)
                   && IsPastTheEdge(status, pages, items, change.task))
    ensures var placed := PlaceIn(Some(pages), status, change, rules, AS_ANSWERED);
            placed.outcome != Invalidate ==>
              && placed.data.Some? && |placed.data.value| == |pages|
              && Reflects(status, placed.data.value, Without(items, IdOf(change)) + tail, rules.Limit(status))
  {
    hide Before, Compare, Without, Flatten, WithItems, Sorted, DistinctIds, InsertIn, SortBy, BelongsIn, Holds,
         Reflects;
    var limit, id := rules.Limit(status), IdOf(change);
    if !Holds(items, id) {
      WithoutNothing(items, id);
      UnchangedReflects(status, pages, items, rest, tail, limit);
    } else if HasMore(pages) ==> items[|items| - 1].id != id && |Without(items, id)| >= |pages| * limit {
      RemovalReflects(status, pages, items, rest, tail, limit, id);
    }
  }

  /** What a placement of a task the server shows here leaves: the window of its list with the task in its place. */
  ghost predicate ShownIn(status: Status, pages: Pages, items: seq<Task>, rest: seq<Task>, task: Task, rules: Rules) {
    var placed := PlaceIn(Some(pages), status, Found(task), rules, AS_ANSWERED);
    placed.outcome != Invalidate ==>
      && placed.data.Some? && |placed.data.value| == |pages|
      && Reflects(status, placed.data.value, InsertIn(status, task, Without(items + rest, task.id)),
                  rules.Limit(status))
  }

  /** Before the edge it goes to its place. */
  lemma ShownInPlace(status: Status, pages: Pages, items: seq<Task>, rest: seq<Task>, task: Task, rules: Rules)
    requires Cut(status, pages, items, rest, rules.Limit(status))
    requires BelongsIn(task, status, rules) == Some(true) && !IsPastTheEdge(status, pages, items, task)
    ensures ShownIn(status, pages, items, rest, task, rules)
  {
    hide Before, Compare, Without, Flatten, WithItems, Sorted, DistinctIds, InsertIn, SortBy, BelongsIn, Holds,
         Reflects, SameIds, HasMore;
    ChangedCut(status, items, rest, task);
    SortedFront(status, items, rest);
    SortedIsInserted(status, items, task);
    if !Holds(items, task.id) {
      WithoutNothing(items, task.id);
    }
    if HasMore(pages) ==> items[|items| - 1].id == task.id ==> Compare(status, task, items[|items| - 1]) == 0 {
      InsertionReflects(status, pages, items, rest, rules.Limit(status), task);
    }
  }

  /** A task the server shows in this list: in its place, or past the edge. */
  lemma ShownRefines(status: Status, pages: Pages, items: seq<Task>, rest: seq<Task>, task: Task, rules: Rules)
    requires Cut(status, pages, items, rest, rules.Limit(status))
    requires BelongsIn(task, status, rules) == Some(true)
    ensures ShownIn(status, pages, items, rest, task, rules)
  {
    hide Before, Compare, Without, Flatten, Sorted, DistinctIds, InsertIn, BelongsIn, Reflects, PlaceIn;
    if IsPastTheEdge(status, pages, items, task) {
      ChangedCut(status, items, rest, task);
      NotHereRefines(status, pages, items, rest, InsertIn(status, task, Without(rest, task.id)), Found(task), rules);
    } else {
      ShownInPlace(status, pages, items, rest, task, rules);
    }
  }

  /**
   One list placed: unless it asks to be read again, the window is the prefix of the
   server's changed list up to the same edge.
   */
  lemma {:induction false} PlaceInRefines(
      status: Status, pages: Pages, list: seq<Task>, change: Change, rules: Rules, scope: Scope, person: string)
    requires RulesAgree(rules, scope, person)
    requires Sorted(status, list) && DistinctIds(list) && Reflects(status, pages, list, rules.Limit(status))
    ensures var placed := PlaceIn(Some(pages), status, change, rules, AS_ANSWERED);
            placed.outcome != Invalidate ==>
              && placed.data.Some? && |placed.data.value| == |pages|
              && Reflects(status, placed.data.value, Changed(list, status, scope, person, change), rules.Limit(status))
  {
    hide Before, Compare, Without, Flatten, WithItems, Sorted, DistinctIds, InsertIn, BelongsIn, Shows, Reflects;
    var items := Flatten(pages);
    var rest := CutAt(status, pages, list, rules.Limit(status));
    if change.Found? {
      BelongsIsShown(change.task, status, rules, scope, person);
    }
    if change.Found? && BelongsIn(change.task, status, rules) == Some(true) {
      ShownRefines(status, pages, items, rest, change.task, rules);
    } else if change.Gone? || BelongsIn(change.task, status, rules) == Some(false) {
      WithoutConcat(items, rest, IdOf(change));
      WithoutNone(IdOf(change));
      NotHereRefines(status, pages, items, rest, Without(rest, IdOf(change)), change, rules);
    }
  }

  lemma CutAt(status: Status, pages: Pages, list: seq<Task>, limit: nat) returns (rest: seq<Task>)
    requires Sorted(status, list) && DistinctIds(list) && Reflects(status, pages, list, limit)
    ensures list == Flatten(pages) + rest && Cut(status, pages, Flatten(pages), rest, limit)
  {
    hide Before, Compare, Flatten, Sorted, DistinctIds;
    rest := list[|Flatten(pages)|..];
    assert list == Flatten(pages) + rest;
  }

  // ------------------------------------------------------------ what a placement decides

  /** The change leaves its task shown in this list, no further down than the window's edge. */
  predicate IsToBeHeld(status: Status, pages: Pages, change: Change, scope: Scope, person: string) {
    && change.Found? && Shows(change.task, status, scope, person)
    && !IsPastTheEdge(status, pages, Flatten(pages), change.task)
  }

  /** The person the list is for is not known, and only who sees the task decides whether it is shown. */
  predicate CannotTell(status: Status, change: Change, rules: Rules) {
    && change.Found? && !change.task.deleted && !change.task.archived && change.task.status == status
    && rules.scope.Mine? && rules.meId.None?
  }

  /**
   The window cannot say what the server shows after the change: rows stand behind its edge,
   and the change takes the edge's own row from its place, or takes a row out of a window
   that then holds less than a page's worth per page.
   */
  predicate EdgeIsInDoubt(status: Status, pages: Pages, change: Change, limit: nat, scope: Scope, person: string) {
    var items := Flatten(pages);
    && HasMore(pages) && Holds(items, IdOf(change))
    && if items[|items| - 1].id == IdOf(change)
       then !(change.Found? && Shows(change.task, status, scope, person)
              && Compare(status, change.task, items[|items| - 1]) == 0)
       else !IsToBeHeld(status, pages, change, scope, person) && |items| - 1 < |pages| * limit
  }

  /** The rows hold what they held, in the same places, but the task of the change as it has it. */
  ghost predicate SwapsInPlace(rows: seq<Task>, items: seq<Task>, task: Task) {
    |rows| == |items| && forall i :: 0 <= i < |rows| ==> rows[i] == if items[i].id == task.id then task else items[i]
  }

  /** What a placement says it did is what it did. */
  ghost predicate OutcomeTells(
      items: seq<Task>, rows: seq<Task>, outcome: Outcome, change: Change, mode: PlaceMode, isToBeHeld: bool) {
    var held := Holds(items, IdOf(change));
    match outcome
    case Unchanged => !held && !isToBeHeld && rows == items
    case Inserted => !held && isToBeHeld && |rows| == |items| + 1
    case Removed => held && !isToBeHeld && rows == Without(items, IdOf(change))
    case Replaced =>
      && held && isToBeHeld && SameIds(rows, items)
      && (mode.inPlace && change.Found? ==> SwapsInPlace(rows, items, change.task))
    case Reordered => held && isToBeHeld && !mode.inPlace && !SameIds(rows, items)
    case Invalidate => true
  }

  /** Removing one of distinct ids leaves one row fewer. */
  lemma {:induction false} WithoutHeld(items: seq<Task>, id: string)
    requires DistinctIds(items) && Holds(items, id)
    ensures |Without(items, id)| == |items| - 1
  {
    if items[0].id == id {
      assert !Holds(items[1..], id);
      WithoutNothing(items[1..], id);
    } else {
      var i :| 0 <= i < |items| && items[i].id == id;
      assert items[1..][i - 1].id == id;
      WithoutHeld(items[1..], id);
    }
  }

  /** Whether the task of a change belongs in a list; one that is gone does not. */
  function Belongs(change: Change, status: Status, rules: Rules): Option<bool> {
    if change.Found? then BelongsIn(change.task, status, rules) else Some(false)
  }

  predicate BelongsBeforeTheEdge(status: Status, pages: Pages, change: Change, rules: Rules) {
    Belongs(change, status, rules) == Some(true) && !IsPastTheEdge(status, pages, Flatten(pages), change.task)
  }

  /** What puts a window's edge in doubt, as the placement decides it. */
  predicate LeavesTheEdgeInDoubt(
      status: Status, items: seq<Task>, change: Change, least: nat, belongs: bool, staysBeforeTheEdge: bool)
  {
    items != [] &&
    var edge := items[|items| - 1];
    if edge.id == IdOf(change) then !(belongs && change.Found? && Compare(status, change.task, edge) == 0)
    else !staysBeforeTheEdge && |items| - 1 < least
  }

  lemma NotHeldAsDecided(status: Status, pages: Pages, change: Change, rules: Rules, mode: PlaceMode)
    requires pages != [] && !Holds(Flatten(pages), IdOf(change))
    ensures PlaceIn(Some(pages), status, change, rules, mode).outcome.Invalidate? <==>
              Belongs(change, status, rules).None?
  {
    hide Compare, Without, Flatten, WithItems, SortBy, BelongsIn, SameIds, HasMore, Holds, Swapped, PageWorth;
    if Flatten(pages) != [] {
      LastIsHeld(Flatten(pages));
    }
  }

  lemma HeldAsDecided(status: Status, pages: Pages, change: Change, rules: Rules, mode: PlaceMode)
    requires pages != [] && DistinctIds(Flatten(pages)) && Holds(Flatten(pages), IdOf(change))
    ensures PlaceIn(Some(pages), status, change, rules, mode).outcome.Invalidate? <==>
              || Belongs(change, status, rules).None?
              || (&& HasMore(pages)
                  && LeavesTheEdgeInDoubt(status, Flatten(pages), change, PageWorth(pages, rules.Limit(status)),
                                          Belongs(change, status, rules) == Some(true),
                                          BelongsBeforeTheEdge(status, pages, change, rules)))
  {
    hide Compare, Without, Flatten, WithItems, DistinctIds, SortBy, BelongsIn, SameIds, HasMore, Holds, Swapped,
         PageWorth;
    HoldsNone(IdOf(change));
    WithoutHeld(Flatten(pages), IdOf(change));
  }

  lemma LastIsHeld(items: seq<Task>)
    requires items != []
    ensures Holds(items, items[|items| - 1].id)
  {
  }

  lemma PlacedAsDecided(status: Status, pages: Pages, change: Change, rules: Rules, mode: PlaceMode)
    requires pages != []
    ensures var placed := PlaceIn(Some(pages), status, change, rules, mode);
            placed.outcome.Invalidate? ||
              (placed.data.Some?
               && OutcomeTells(Flatten(pages), Flatten(placed.data.value), placed.outcome, change, mode,
                               BelongsBeforeTheEdge(status, pages, change, rules)))
  {
    hide Compare, Without, Flatten, WithItems, SortBy, BelongsIn, SameIds, HasMore, Holds, Swapped, SwapsInPlace;
    var items, id := Flatten(pages), IdOf(change);
    if !Holds(items, id) {
      WithoutNothing(items, id);
    }
    FlattenOfWithItems(pages, Without(items, id));
    if change.Found? {
      SortKeepsLength(status, Without(items, id) + [change.task]);
      FlattenOfWithItems(pages, SortBy(status, Without(items, id) + [change.task]));
      FlattenOfWithItems(pages, Swapped(items, change.task));
      SwappedIsInPlace(items, change.task);
    }
  }

  lemma HoldsNone(id: string)
    ensures !Holds([], id)
  {
  }

  lemma SwappedIsInPlace(items: seq<Task>, task: Task)
    ensures SwapsInPlace(Swapped(items, task), items, task) && SameIds(Swapped(items, task), items)
  {
  }

  lemma {:induction false} SortKeepsLength(status: Status, s: seq<Task>)
    ensures |SortBy(status, s)| == |s|
  {
    if s != [] {
      SortKeepsLength(status, s[..|s| - 1]);
    }
  }

  /**
   A placement asks for a list to be read again exactly when the person is not known and
   decides, or the window's edge is in doubt; and otherwise it does to the window what its
   outcome says, whatever the mode.
   */
  lemma AReadIsAskedForExactlyWhen(
      status: Status, pages: Pages, change: Change, rules: Rules, mode: PlaceMode, scope: Scope, person: string)
    requires pages != [] && DistinctIds(Flatten(pages)) && RulesAgree(rules, scope, person)
    ensures var placed := PlaceIn(Some(pages), status, change, rules, mode);
            && (placed.outcome.Invalidate? <==>
                  || CannotTell(status, change, rules)
                  || EdgeIsInDoubt(status, pages, change, rules.Limit(status), scope, person))
            && (placed.outcome.Invalidate? ||
                (&& placed.data.Some?
                 && OutcomeTells(Flatten(pages), Flatten(placed.data.value), placed.outcome, change, mode,
                                 IsToBeHeld(status, pages, change, scope, person))))
  {
    hide PlaceIn, Flatten, Compare, HasMore, Holds, DistinctIds, OutcomeTells, IsPastTheEdge, BelongsIn;
    if Holds(Flatten(pages), IdOf(change)) {
      HoldsNone(IdOf(change));
      HeldAsDecided(status, pages, change, rules, mode);
    } else {
      NotHeldAsDecided(status, pages, change, rules, mode);
    }
    PlacedAsDecided(status, pages, change, rules, mode);
    if change.Found? {
      TellsUnlessThePersonDecides(change.task, status, rules);
      BelongsIsShown(change.task, status, rules, scope, person);
    }
  }

  lemma TellsUnlessThePersonDecides(task: Task, status: Status, rules: Rules)
    ensures BelongsIn(task, status, rules).None? <==> CannotTell(status, Found(task), rules)
  {
  }

  /** So a task the list does not hold is put in its place or left out, and never has the list read again. */
  lemma ATaskNotHeldAsksForNoRead(
      status: Status, pages: Pages, change: Change, rules: Rules, mode: PlaceMode, scope: Scope, person: string)
    requires pages != [] && DistinctIds(Flatten(pages)) && RulesAgree(rules, scope, person)
    requires !Holds(Flatten(pages), IdOf(change)) && !CannotTell(status, change, rules)
    ensures PlaceIn(Some(pages), status, change, rules, mode).outcome
         == if IsToBeHeld(status, pages, change, scope, person) then Inserted else Unchanged
  {
    hide PlaceIn, Flatten, Holds, DistinctIds, IsToBeHeld, CannotTell;
    AReadIsAskedForExactlyWhen(status, pages, change, rules, mode, scope, person);
  }

  /** An edit made before its answer goes where the answer would, unless it is kept in its place. */
  lemma AnEditGoesWhereItsAnswerWould(
      data: Option<Pages>, status: Status, change: Change, rules: Rules, mode: PlaceMode)
    requires !mode.inPlace
    ensures PlaceIn(data, status, change, rules, mode) == PlaceIn(data, status, change, rules, AS_ANSWERED)
  {
  }

  // ------------------------------------------------------------ both lists of a scope

  /** Each cached list of the scope is a window of the server's. */
  ghost predicate BothReflect(lists: Lists, world: World, rules: Rules, scope: Scope, person: string) {
    forall status, list ::
      lists.Of(status).Some? && lists.Of(status).value != [] && IsServerList(world, status, scope, person, list) ==>
        Reflects(status, lists.Of(status).value, list, rules.Limit(status))
  }

  /** A held row is one of the server's rows. */
  lemma HeldRowIsTheServers(
      world: World, status: Status, pages: Pages, list: seq<Task>, limit: nat, scope: Scope, person: string,
      t: Task)
    requires IsServerList(world, status, scope, person, list) && Reflects(status, pages, list, limit)
    requires t in Flatten(pages)
    ensures t.id in world && world[t.id] == t && t.status == status
  {
    hide Before, Compare, Flatten, Sorted;
    var items := Flatten(pages);
    var i :| 0 <= i < |items| && items[i] == t;
    assert list[i] == t && list[i] in list;
  }

  /** What the server does not know yet the lists do not hold: news is placed. */
  lemma {:induction false} NewsIsNotHeld(
      lists: Lists, world: World, rules: Rules, scope: Scope, person: string, task: Task,
      openList: seq<Task>, doneList: seq<Task>)
    requires IsServerList(world, OpenTask, scope, person, openList)
    requires IsServerList(world, DoneTask, scope, person, doneList)
    requires BothReflect(lists, world, rules, scope, person) && IsNews(world, Found(task))
    ensures !HeldAtOrAbove(lists, task)
  {
    hide IsServerList, Reflects, Flatten;
    NoneHeld([], OpenTask);
    forall status: Status, t | lists.Of(status).Some? && t in Flatten(lists.Of(status).value)
      ensures !(t.id == task.id && t.version >= task.version)
    {
      var list := if status.OpenTask? then openList else doneList;
      if lists.Of(status).value != [] {
        HeldRowIsTheServers(world, status, lists.Of(status).value, list, rules.Limit(status), scope, person, t);
      }
    }
    assert lists.Of(OpenTask) == lists.openTasks && lists.Of(DoneTask) == lists.doneTasks;
  }

  lemma NoneHeld(pages: Pages, status: Status)
    requires pages == []
    ensures Flatten(pages) == []
  {
  }

  /**
   A change that is news, placed in both lists of a scope: every list that is not
   asked to be read again shows exactly what the server's list shows after the change,
   up to the edge it showed before.
   */
  lemma {:induction false} PlacementRefinesTheServer(
      lists: Lists, world: World, change: Change, rules: Rules, scope: Scope, person: string,
      openList: seq<Task>, doneList: seq<Task>, status: Status, after: seq<Task>)
    requires RulesAgree(rules, scope, person) && Keyed(world) && IsNews(world, change)
    requires IsServerList(world, OpenTask, scope, person, openList)
    requires IsServerList(world, DoneTask, scope, person, doneList)
    requires BothReflect(lists, world, rules, scope, person)
    requires IsServerList(Applied(world, change), status, scope, person, after)
    requires lists.Of(status).Some? && lists.Of(status).value != []
    ensures var placed := PlaceTask(lists, change, rules, AS_ANSWERED).Of(status);
            placed.outcome != Invalidate ==>
              && placed.data.Some? && |placed.data.value| == |lists.Of(status).value|
              && Reflects(status, placed.data.value, after, rules.Limit(status))
  {
    hide IsServerList, Reflects, PlaceIn, Changed, Flatten, HeldAtOrAbove;
    if change.Found? {
      NewsIsNotHeld(lists, world, rules, scope, person, change.task, openList, doneList);
    }
    var list := if status.OpenTask? then openList else doneList;
    ServerListHasDistinctIds(world, status, scope, person, list);
    SortedServerList(world, status, scope, person, list);
    PlaceInRefines(status, lists.Of(status).value, list, change, rules, scope, person);
    ServerListChanges(world, status, scope, person, list, change);
    ServerListIsUnique(Applied(world, change), status, scope, person, after,
                       Changed(list, status, scope, person, change));
  }

  lemma SortedServerList(world: World, status: Status, scope: Scope, person: string, list: seq<Task>)
    requires IsServerList(world, status, scope, person, list)
    ensures Sorted(status, list)
  {
    hide Sorted;
  }

  /** Windows of one world's lists never show an id in both. */
  lemma {:induction false} NoIdInBothLists(
      world: World, scope: Scope, person: string, openPages: Pages, donePages: Pages,
      openList: seq<Task>, doneList: seq<Task>, openLimit: nat, doneLimit: nat)
    requires IsServerList(world, OpenTask, scope, person, openList)
    requires IsServerList(world, DoneTask, scope, person, doneList)
    requires Reflects(OpenTask, openPages, openList, openLimit) && Reflects(DoneTask, donePages, doneList, doneLimit)
    ensures forall a, b :: a in Flatten(openPages) && b in Flatten(donePages) ==> a.id != b.id
  {
    hide IsServerList, Reflects, Flatten;
    forall a, b | a in Flatten(openPages) && b in Flatten(donePages)
      ensures a.id != b.id
    {
      HeldRowIsTheServers(world, OpenTask, openPages, openList, openLimit, scope, person, a);
      HeldRowIsTheServers(world, DoneTask, donePages, doneList, doneLimit, scope, person, b);
    }
  }

  // ------------------------------------------------------------ what is shown

  /** How many rows a page asks for: a page's worth per page loaded, and per extra page of held rows. */
  function Asked(pagesLoaded: nat, limit: nat, extraPages: nat): nat {
    (if pagesLoaded + extraPages > 1 then pagesLoaded + extraPages else 1) * limit
  }

  lemma ShownIsAPrefix(items: seq<Task>, pagesLoaded: nat, limit: nat, extraPages: nat)
    ensures var asked, shown := Asked(pagesLoaded, limit, extraPages), WindowOf(items, pagesLoaded, limit, extraPages);
            |shown| == (if asked < |items| then asked else |items|) && shown == items[..|shown|]
  {
  }

  lemma AskedGrows(pagesLoaded: nat, limit: nat, extraPages: nat)
    requires pagesLoaded > 0
    ensures Asked(pagesLoaded, limit, 0) == pagesLoaded * limit <= Asked(pagesLoaded, limit, extraPages)
  {
    assert (pagesLoaded + extraPages) * limit == pagesLoaded * limit + extraPages * limit;
  }

  /**
   What the page shows is the first rows of the server's list: at least a page's worth per
   page loaded, and all that were asked for exactly when they are held or there are no more.
   */
  lemma {:induction false} WhatIsShownIsTheServers(
      status: Status, pages: Pages, list: seq<Task>, limit: nat, extraPages: nat)
    requires Reflects(status, pages, list, limit)
    ensures var asked, shown := Asked(|pages|, limit, extraPages), WindowOf(Flatten(pages), |pages|, limit, extraPages);
            && shown <= WindowOf(list, |pages|, limit, extraPages)
            && WindowOf(list, |pages|, limit, 0) <= shown
            && (shown == WindowOf(list, |pages|, limit, extraPages)
                <==> asked <= |Flatten(pages)| || |Flatten(pages)| == |list|)
  {
    hide Compare, Flatten, WindowOf, Asked;
    var items := Flatten(pages);
    ShownIsAPrefix(items, |pages|, limit, extraPages);
    ShownIsAPrefix(list, |pages|, limit, extraPages);
    ShownIsAPrefix(list, |pages|, limit, 0);
    AskedGrows(|pages|, limit, extraPages);
    var shown, all, least := WindowOf(items, |pages|, limit, extraPages), WindowOf(list, |pages|, limit, extraPages),
                             WindowOf(list, |pages|, limit, 0);
    PrefixOfPrefix(list, items, |shown|);
    assert shown == list[..|shown|];
    Shorter(list, |shown|, |all|);
    Shorter(list, |least|, |shown|);
  }

  lemma PrefixOfPrefix(list: seq<Task>, items: seq<Task>, n: nat)
    requires |items| <= |list| && items == list[..|items|] && n <= |items|
    ensures items[..n] == list[..n]
  {
  }

  lemma Shorter(list: seq<Task>, m: nat, n: nat)
    requires m <= |list| && n <= |list|
    ensures m <= n <==> list[..m] <= list[..n]
  {
  }

  /** The rows of a list after a position, as the server reads a cursor. */
  function RowsAfter(status: Status, list: seq<Task>, at: Task): seq<Task> {
    if list == [] || Compare(status, list[0], at) > 0 then list else RowsAfter(status, list[1..], at)
  }

  /** The next page the server answers, with the position it ended on when rows remain. */
  function NextPage(status: Status, list: seq<Task>, at: Task, limit: nat): Page {
    var rows := RowsAfter(status, list, at);
    if |rows| <= limit || limit == 0 then Page(rows, None) else Page(rows[..limit], Some(rows[limit - 1]))
  }

  /** Around a position: what comes before the row that stands there, and what comes after it. */
  lemma AroundThePosition(status: Status, edge: Task, at: Task, x: Task)
    requires Compare(status, edge, at) == 0
    ensures Before(status, edge, x) ==> Compare(status, x, at) > 0
    ensures x == edge || Before(status, x, edge) ==> Compare(status, x, at) <= 0
  {
    hide Before, Compare, Place, IdBefore;
    CompareIsLexicographic(status, edge, at);
    CompareIsLexicographic(status, edge, x);
    CompareIsLexicographic(status, x, edge);
    CompareIsLexicographic(status, x, at);
    CompareIsLexicographic(status, at, x);
    OrderIsTotal(status, x, edge);
    OrderIsTotal(status, x, at);
  }

  lemma {:induction false} RowsAfterTheEdge(status: Status, items: seq<Task>, rest: seq<Task>, at: Task)
    requires Sorted(status, items + rest) && items != []
    requires Compare(status, items[|items| - 1], at) == 0
    ensures RowsAfter(status, items + rest, at) == rest
  {
    hide Before, Compare;
    var all, edge := items + rest, items[|items| - 1];
    assert all[|items| - 1] == edge;
    AroundThePosition(status, edge, at, all[0]);
    assert RowsAfter(status, all, at) == RowsAfter(status, all[1..], at);
    if |items| == 1 {
      assert all[1..] == rest;
      if rest != [] {
        assert all[1] == rest[0];
        AroundThePosition(status, edge, at, rest[0]);
      }
    } else {
      assert all[1..] == items[1..] + rest;
      RowsAfterTheEdge(status, items[1..], rest, at);
    }
  }

  /**
   Appending the page the server reads from the window's cursor gives the longer
   prefix: no row is lost or repeated, however many placements came between.
   */
  lemma {:induction false} NextPageExtendsTheWindow(status: Status, pages: Pages, list: seq<Task>, limit: nat)
    requires Sorted(status, list) && DistinctIds(list) && limit > 0
    requires Reflects(status, pages, list, limit) && HasMore(pages)
    ensures Reflects(status, pages + [NextPage(status, list, pages[|pages| - 1].next.value, limit)], list, limit)
  {
    hide Before, Compare, Flatten, Sorted, DistinctIds, RowsAfter;
    var cursor := pages[|pages| - 1].next.value;
    var items := Flatten(pages);
    var rest := CutAt(status, pages, list, limit);
    RowsAfterTheEdge(status, items, rest, cursor);
    var page := NextPage(status, list, cursor, limit);
    FlattenAppend(pages, page);
    assert (|pages| + 1) * limit == |pages| * limit + limit;
    assert list[..|items| + |page.items|] == items + page.items;
    if page.next.Some? {
      CompareIsLexicographic(status, page.next.value, page.next.value);
    }
  }
}
