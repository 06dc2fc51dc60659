/**
 A scope's two cached lists over whole runs: server changes placed as they come, reads,
 and further pages. A list that has not asked to be read again always shows the
 server's rows.
 */
module WindowRuns {
  import opened Options
  import opened TaskOrder
  import opened TaskPlacement
  import opened PlacementTheorems
  import TaskLanding

  /** A cached list, and whether it is to be read again; until then its old rows stay. */
  datatype Cached = Cached(data: Option<Pages>, stale: bool)

  /** Who looks at what: the rules the placement goes by, and the person they hold for. */
  datatype Viewer = Viewer(rules: Rules, scope: Scope, person: string)

  /** The server's tasks and lists, the newest version it ever gave each task, and what is cached. */
  datatype State = State(
    world: World, seen: map<string, nat>, openList: seq<Task>, doneList: seq<Task>,
    openTasks: Cached, doneTasks: Cached)
  {
    function Served(status: Status): seq<Task> {
      if status.OpenTask? then openList else doneList
    }

    function Of(status: Status): Cached {
      if status.OpenTask? then openTasks else doneTasks
    }

    function With(status: Status, cached: Cached): State {
      if status.OpenTask? then this.(openTasks := cached) else this.(doneTasks := cached)
    }

    function Both(): Lists {
      Lists(openTasks.data, doneTasks.data)
    }
  }

  datatype Event =
    | ServerSaid(change: Change)
    | Read(status: Status, pages: nat)
    | ShowMore(status: Status)

  /** A task the server gives is newer than it ever gave it, also before it was gone. */
  predicate IsNew(s: State, change: Change) {
    change.Found? ==> change.task.id !in s.seen || s.seen[change.task.id] < change.task.version
  }

  function Placed(before: Cached, placement: Placement): Cached {
    Cached(placement.data, before.stale || placement.outcome.Invalidate?)
  }

  function FirstPage(list: seq<Task>, limit: nat): Page {
    if |list| <= limit || limit == 0 then Page(list, None) else Page(list[..limit], Some(list[limit - 1]))
  }

  function MorePages(status: Status, pages: Pages, list: seq<Task>, limit: nat): Pages {
    if HasMore(pages) then pages + [NextPage(status, list, pages[|pages| - 1].next.value, limit)] else pages
  }

  /** A list read page by page, each from the cursor of the one before. */
  function ReadPages(status: Status, list: seq<Task>, limit: nat, pages: nat): Pages {
    if pages <= 1 then [FirstPage(list, limit)]
    else MorePages(status, ReadPages(status, list, limit, pages - 1), list, limit)
  }

  function Step(v: Viewer, s: State, e: Event): State {
    match e
    case ServerSaid(change) =>
      if !IsNew(s, change) then s
      else
        var placed := PlaceTask(s.Both(), change, v.rules, AS_ANSWERED);
        State(Applied(s.world, change), if change.Found? then s.seen[change.task.id := change.task.version] else s.seen,
              Changed(s.openList, OpenTask, v.scope, v.person, change),
              Changed(s.doneList, DoneTask, v.scope, v.person, change),
              Placed(s.openTasks, placed.openTasks), Placed(s.doneTasks, placed.doneTasks))
    case Read(status, pages) =>
      s.With(status, Cached(Some(ReadPages(status, s.Served(status), v.rules.Limit(status), pages)), false))
    case ShowMore(status) =>
      if s.Of(status).data.None? || s.Of(status).stale then s
      else
        var pages := MorePages(status, s.Of(status).data.value, s.Served(status), v.rules.Limit(status));
        s.With(status, Cached(Some(pages), false))
  }

  function Run(v: Viewer, start: State, events: seq<Event>): State {
    if events == [] then start
    else Step(v, Run(v, start, events[..|events| - 1]), events[|events| - 1])
  }

  // ------------------------------------------------------------ what every step keeps

  ghost predicate IsViewer(v: Viewer) {
    RulesAgree(v.rules, v.scope, v.person) && v.rules.openLimit > 0 && v.rules.doneLimit > 0
  }

  /** The list shows the server's rows up to its edge, unless it is to be read again. */
  ghost predicate InStep(v: Viewer, s: State, status: Status) {
    var cached := s.Of(status);
    !cached.stale && cached.data.Some? && cached.data.value != [] ==>
      Reflects(status, cached.data.value, s.Served(status), v.rules.Limit(status))
  }

  ghost predicate RowsSeen(rows: seq<Task>, seen: map<string, nat>) {
    forall t :: t in rows ==> t.id in seen && t.version <= seen[t.id]
  }

  ghost predicate WorldSeen(world: World, seen: map<string, nat>) {
    forall id :: id in world ==> id in seen && world[id].version <= seen[id]
  }

  ghost predicate Serves(v: Viewer, s: State) {
    && Keyed(s.world) && WorldSeen(s.world, s.seen)
    && IsServerList(s.world, OpenTask, v.scope, v.person, s.openList)
    && IsServerList(s.world, DoneTask, v.scope, v.person, s.doneList)
  }

  ghost predicate Invariant(v: Viewer, s: State) {
    && Serves(v, s)
    && (forall status :: InStep(v, s, status))
    && (forall status :: RowsSeen(TaskLanding.Rows(s.Of(status).data), s.seen))
  }

  lemma NewIsNotHeld(s: State, task: Task)
    requires forall status :: RowsSeen(TaskLanding.Rows(s.Of(status).data), s.seen)
    requires IsNew(s, Found(task))
    ensures !HeldAtOrAbove(s.Both(), task)
  {
    hide Flatten;
    assert RowsSeen(TaskLanding.Rows(s.Of(OpenTask).data), s.seen);
    assert RowsSeen(TaskLanding.Rows(s.Of(DoneTask).data), s.seen);
  }

  lemma ChangeServes(v: Viewer, s: State, change: Change)
    requires Serves(v, s) && IsNew(s, change)
    ensures Serves(v, Step(v, s, ServerSaid(change)))
  {
    hide IsServerList, PlaceTask, Changed;
    ServerListChanges(s.world, OpenTask, v.scope, v.person, s.openList, change);
    ServerListChanges(s.world, DoneTask, v.scope, v.person, s.doneList, change);
  }

  lemma ServedIsSorted(v: Viewer, s: State, status: Status)
    requires Serves(v, s)
    ensures Sorted(status, s.Served(status)) && DistinctIds(s.Served(status))
    ensures IsServerList(s.world, status, v.scope, v.person, s.Served(status))
  {
    hide IsServerList, Sorted, DistinctIds;
    ServerListHasDistinctIds(s.world, OpenTask, v.scope, v.person, s.openList);
    ServerListHasDistinctIds(s.world, DoneTask, v.scope, v.person, s.doneList);
    SortedServerList(s.world, OpenTask, v.scope, v.person, s.openList);
    SortedServerList(s.world, DoneTask, v.scope, v.person, s.doneList);
  }

  lemma ChangePlaces(v: Viewer, s: State, change: Change, status: Status)
    requires Invariant(v, s) && IsNew(s, change)
    ensures Step(v, s, ServerSaid(change)).Of(status)
         == Placed(s.Of(status), PlaceIn(s.Of(status).data, status, change, v.rules, AS_ANSWERED))
  {
    hide PlaceIn, Changed, Applied, HeldAtOrAbove, Serves, InStep, RowsSeen;
    if change.Found? {
      NewIsNotHeld(s, change.task);
    }
  }

  lemma ChangeKeepsInStep(v: Viewer, s: State, change: Change, status: Status)
    requires IsViewer(v) && Invariant(v, s) && IsNew(s, change)
    ensures InStep(v, Step(v, s, ServerSaid(change)), status)
  {
    hide PlaceIn, Changed, Reflects, PlaceTask, Serves, Sorted, DistinctIds, IsServerList, RulesAgree;
    var t, cached := Step(v, s, ServerSaid(change)), s.Of(status);
    ChangePlaces(v, s, change, status);
    ServedIsSorted(v, s, status);
    assert InStep(v, s, status);
    assert t.Served(status) == Changed(s.Served(status), status, v.scope, v.person, change);
    if cached.data.Some? && cached.data.value != [] {
      if !cached.stale {
        PlaceInRefines(status, cached.data.value, s.Served(status), change, v.rules, v.scope, v.person);
      }
    } else {
      NothingPlaced(cached.data, status, change, v.rules);
    }
  }

  lemma NothingPlaced(data: Option<Pages>, status: Status, change: Change, rules: Rules)
    requires data.None? || data.value == []
    ensures PlaceIn(data, status, change, rules, AS_ANSWERED).data == data
  {
  }

  lemma ChangeKeepsRowsSeen(v: Viewer, s: State, change: Change, status: Status)
    requires Invariant(v, s) && IsNew(s, change)
    ensures var t := Step(v, s, ServerSaid(change)); RowsSeen(TaskLanding.Rows(t.Of(status).data), t.seen)
  {
    hide PlaceIn, Changed, PlaceTask, Serves, TaskLanding.Rows, InStep;
    var data := s.Of(status).data;
    ChangePlaces(v, s, change, status);
    assert RowsSeen(TaskLanding.Rows(data), s.seen);
    TaskLanding.PlacementTouchesOne(data, status, change, v.rules, AS_ANSWERED);
    TaskLanding.PlacementShowsTheChange(data, status, change, v.rules, AS_ANSWERED);
    InvalidateKeepsData(data, status, change, v.rules);
  }

  lemma InvalidateKeepsData(data: Option<Pages>, status: Status, change: Change, rules: Rules)
    ensures var placement := PlaceIn(data, status, change, rules, AS_ANSWERED);
            placement.outcome.Invalidate? ==> placement.data == data
  {
    hide Flatten, Without, SortBy, WithItems, HasMore, Compare, BelongsIn, Holds, Swapped;
  }

  lemma ChangeKeeps(v: Viewer, s: State, change: Change)
    requires IsViewer(v) && Invariant(v, s)
    ensures Invariant(v, Step(v, s, ServerSaid(change)))
  {
    hide PlaceTask, Changed, Serves, InStep, RowsSeen, IsViewer;
    if IsNew(s, change) {
      ChangeServes(v, s, change);
      forall status: Status
        ensures InStep(v, Step(v, s, ServerSaid(change)), status)
      {
        ChangeKeepsInStep(v, s, change, status);
      }
      forall status: Status
        ensures var t := Step(v, s, ServerSaid(change)); RowsSeen(TaskLanding.Rows(t.Of(status).data), t.seen)
      {
        ChangeKeepsRowsSeen(v, s, change, status);
      }
    }
  }

  // ------------------------------------------------------------ reads

  lemma FirstPageReflects(status: Status, list: seq<Task>, limit: nat)
    requires limit > 0
    ensures Reflects(status, [FirstPage(list, limit)], list, limit)
  {
    hide Compare;
    var page := FirstPage(list, limit);
    assert Flatten([page]) == page.items by {
      assert [page][1..] == [];
      assert Flatten([]) == [];
    }
    if page.next.Some? {
      SamePlace(status, page.next.value);
    }
  }

  lemma SamePlace(status: Status, t: Task)
    ensures Compare(status, t, t) == 0
  {
    hide Compare;
    CompareIsLexicographic(status, t, t);
  }

  lemma MorePagesReflect(status: Status, pages: Pages, list: seq<Task>, limit: nat)
    requires Sorted(status, list) && DistinctIds(list) && limit > 0 && Reflects(status, pages, list, limit)
    ensures Reflects(status, MorePages(status, pages, list, limit), list, limit)
  {
    hide Reflects, Sorted, DistinctIds, NextPage;
    if HasMore(pages) {
      NextPageExtendsTheWindow(status, pages, list, limit);
    }
  }

  lemma {:induction false} ReadReflects(status: Status, list: seq<Task>, limit: nat, pages: nat)
    requires Sorted(status, list) && DistinctIds(list) && limit > 0
    ensures Reflects(status, ReadPages(status, list, limit, pages), list, limit)
  {
    hide Reflects, Sorted, DistinctIds, MorePages, FirstPage;
    if pages <= 1 {
      FirstPageReflects(status, list, limit);
    } else {
      ReadReflects(status, list, limit, pages - 1);
      MorePagesReflect(status, ReadPages(status, list, limit, pages - 1), list, limit);
    }
  }

  lemma ReflectedRowsSeen(v: Viewer, s: State, status: Status, pages: Pages)
    requires Serves(v, s) && Reflects(status, pages, s.Served(status), v.rules.Limit(status))
    ensures RowsSeen(TaskLanding.Rows(Some(pages)), s.seen)
  {
    hide IsServerList, Reflects, Flatten;
    ServedIsSorted(v, s, status);
    forall t | t in Flatten(pages)
      ensures t.id in s.seen && t.version <= s.seen[t.id]
    {
      HeldRowIsTheServers(s.world, status, pages, s.Served(status), v.rules.Limit(status), v.scope, v.person, t);
    }
  }

  /** A list put in place that shows the server's rows leaves everything in step. */
  lemma RefreshKeeps(v: Viewer, s: State, status: Status, pages: Pages)
    requires Invariant(v, s) && Reflects(status, pages, s.Served(status), v.rules.Limit(status))
    ensures Invariant(v, s.With(status, Cached(Some(pages), false)))
  {
    hide Reflects, IsServerList, Flatten, RowsSeen, TaskLanding.Rows;
    var t := s.With(status, Cached(Some(pages), false));
    ReflectedRowsSeen(v, s, status, pages);
    forall other: Status
      ensures InStep(v, t, other) && RowsSeen(TaskLanding.Rows(t.Of(other).data), t.seen)
    {
      assert InStep(v, s, other) && RowsSeen(TaskLanding.Rows(s.Of(other).data), s.seen);
    }
  }

  lemma StepKeeps(v: Viewer, s: State, e: Event)
    requires IsViewer(v) && Invariant(v, s)
    ensures Invariant(v, Step(v, s, e))
  {
    hide PlaceTask, Changed, Reflects, Sorted, DistinctIds, ReadPages, MorePages, RowsSeen, IsServerList, RulesAgree;
    match e
    case ServerSaid(change) => ChangeKeeps(v, s, change);
    case Read(status, pages) =>
      ServedIsSorted(v, s, status);
      ReadReflects(status, s.Served(status), v.rules.Limit(status), pages);
      RefreshKeeps(v, s, status, ReadPages(status, s.Served(status), v.rules.Limit(status), pages));
    case ShowMore(status) =>
      ServedIsSorted(v, s, status);
      assert InStep(v, s, status);
      if s.Of(status).data.Some? && !s.Of(status).stale {
        var pages, limit := s.Of(status).data.value, v.rules.Limit(status);
        if pages == [] {
          NothingMore(status, s.Served(status), limit);
          EmptyKeeps(v, s, status);
        } else {
          MorePagesReflect(status, pages, s.Served(status), limit);
          RefreshKeeps(v, s, status, MorePages(status, pages, s.Served(status), limit));
        }
      }
  }

  lemma NothingMore(status: Status, list: seq<Task>, limit: nat)
    ensures MorePages(status, [], list, limit) == []
  {
  }

  lemma EmptyKeeps(v: Viewer, s: State, status: Status)
    requires s.Of(status) == Cached(Some([]), false)
    ensures s.With(status, Cached(Some([]), false)) == s
  {
  }

  /** Over every run, whatever was placed or read, each list is in step with the server or to be read again. */
  lemma {:induction false} EveryRunStaysInStep(v: Viewer, start: State, events: seq<Event>)
    requires IsViewer(v) && Invariant(v, start)
    ensures Invariant(v, Run(v, start, events))
  {
    hide Step, Invariant, IsViewer;
    if events != [] {
      EveryRunStaysInStep(v, start, events[..|events| - 1]);
      StepKeeps(v, Run(v, start, events[..|events| - 1]), events[|events| - 1]);
    }
  }

  /** A page that is opened with nothing cached yet. */
  lemma NothingCachedIsInStep(v: Viewer, s: State)
    requires Serves(v, s) && s.openTasks == Cached(None, false) && s.doneTasks == Cached(None, false)
    ensures Invariant(v, s)
  {
    hide Serves;
  }

  /**
   What the page shows of a list at any time, with any number of extra pages asked for:
   the first rows of the server's own list, at least a page's worth per page loaded.
   */
  lemma {:induction false} TheServersRowsAreShown(
      v: Viewer, start: State, events: seq<Event>, status: Status, extraPages: nat)
    requires IsViewer(v) && Invariant(v, start)
    requires var cached := Run(v, start, events).Of(status);
             !cached.stale && cached.data.Some? && cached.data.value != []
    ensures var s := Run(v, start, events);
            var pages, limit := s.Of(status).data.value, v.rules.Limit(status);
            var shown := WindowOf(Flatten(pages), |pages|, limit, extraPages);
            && shown <= WindowOf(s.Served(status), |pages|, limit, extraPages)
            && WindowOf(s.Served(status), |pages|, limit, 0) <= shown
  {
    hide Run, WindowOf, Reflects, Serves;
    EveryRunStaysInStep(v, start, events);
    var s := Run(v, start, events);
    assert InStep(v, s, status);
    WhatIsShownIsTheServers(status, s.Of(status).data.value, s.Served(status), v.rules.Limit(status), extraPages);
  }

  /** And no task is in both lists, while neither is to be read again. */
  lemma {:induction false} NoTaskIsInBoth(v: Viewer, start: State, events: seq<Event>, a: Task, b: Task)
    requires IsViewer(v) && Invariant(v, start)
    requires var s := Run(v, start, events); !s.openTasks.stale && !s.doneTasks.stale
    requires a in TaskLanding.Rows(Run(v, start, events).openTasks.data)
    requires b in TaskLanding.Rows(Run(v, start, events).doneTasks.data)
    ensures a.id != b.id
  {
    hide Run, Reflects, IsServerList;
    EveryRunStaysInStep(v, start, events);
    var s := Run(v, start, events);
    assert InStep(v, s, OpenTask) && InStep(v, s, DoneTask);
    HeldRowIsTheServers(s.world, OpenTask, s.openTasks.data.value, s.openList, v.rules.openLimit, v.scope, v.person, a);
    HeldRowIsTheServers(s.world, DoneTask, s.doneTasks.data.value, s.doneList, v.rules.doneLimit, v.scope, v.person, b);
  }

  // ------------------------------------------------------------ when a list is to be read again

  /** What the server said puts a list in doubt that shows its rows. */
  predicate Asks(v: Viewer, s: State, e: Event, status: Status) {
    && e.ServerSaid? && IsNew(s, e.change)
    && var data := s.Of(status).data;
    && data.Some? && data.value != []
    && (CannotTell(status, e.change, v.rules)
        || EdgeIsInDoubt(status, data.value, e.change, v.rules.Limit(status), v.scope, v.person))
  }

  /** Something did since the list was last read. */
  predicate AskedSinceRead(v: Viewer, start: State, events: seq<Event>, status: Status) {
    if events == [] then start.Of(status).stale
    else
      var front, e := events[..|events| - 1], events[|events| - 1];
      if e.Read? && e.status == status then false
      else AskedSinceRead(v, start, front, status) || Asks(v, Run(v, start, front), e, status)
  }

  lemma ReflectsDistinctRows(status: Status, pages: Pages, list: seq<Task>, limit: nat)
    requires Reflects(status, pages, list, limit) && DistinctIds(list)
    ensures DistinctIds(Flatten(pages))
  {
    hide Flatten, EdgeIsNamed;
  }

  lemma ChangeAsks(v: Viewer, s: State, change: Change, status: Status)
    requires IsViewer(v) && Invariant(v, s) && IsNew(s, change) && !s.Of(status).stale
    ensures Step(v, s, ServerSaid(change)).Of(status).stale <==> Asks(v, s, ServerSaid(change), status)
  {
    hide PlaceIn, Changed, Reflects, PlaceTask, Serves, Sorted, DistinctIds, IsServerList, RulesAgree, RowsSeen,
         CannotTell, EdgeIsInDoubt, OutcomeTells;
    var data := s.Of(status).data;
    ChangePlaces(v, s, change, status);
    ServedIsSorted(v, s, status);
    assert InStep(v, s, status);
    if data.Some? && data.value != [] {
      ReflectsDistinctRows(status, data.value, s.Served(status), v.rules.Limit(status));
      AReadIsAskedForExactlyWhen(status, data.value, change, v.rules, AS_ANSWERED, v.scope, v.person);
    } else {
      NothingAsked(data, status, change, v.rules);
    }
  }

  lemma NothingAsked(data: Option<Pages>, status: Status, change: Change, rules: Rules)
    requires data.None? || data.value == []
    ensures PlaceIn(data, status, change, rules, AS_ANSWERED).outcome == Unchanged
  {
  }

  lemma StaleStays(v: Viewer, s: State, e: Event, status: Status)
    requires s.Of(status).stale && !(e.Read? && e.status == status)
    ensures Step(v, s, e).Of(status).stale
  {
    hide PlaceTask, Changed, ReadPages, MorePages, Applied;
  }

  /**
   Over every run a list is to be read again exactly when, since it was last read, the
   server said something that puts what its window shows in doubt.
   */
  lemma {:induction false} ToBeReadAgainExactlyWhen(v: Viewer, start: State, events: seq<Event>, status: Status)
    requires IsViewer(v) && Invariant(v, start)
    ensures Run(v, start, events).Of(status).stale <==> AskedSinceRead(v, start, events, status)
  {
    hide PlaceTask, Changed, ReadPages, MorePages, Applied, IsViewer, Asks, Invariant;
    if events != [] {
      var front, e := events[..|events| - 1], events[|events| - 1];
      ToBeReadAgainExactlyWhen(v, start, front, status);
      EveryRunStaysInStep(v, start, front);
      var s := Run(v, start, front);
      if e.ServerSaid? && IsNew(s, e.change) && !s.Of(status).stale {
        ChangeAsks(v, s, e.change, status);
      } else if s.Of(status).stale && !(e.Read? && e.status == status) {
        StaleStays(v, s, e, status);
      } else {
        OnlyNewsAsks(v, s, e, status);
      }
    }
  }

  lemma OnlyNewsAsks(v: Viewer, s: State, e: Event, status: Status)
    ensures !(e.ServerSaid? && IsNew(s, e.change)) ==> !Asks(v, s, e, status)
    ensures Asks(v, s, e, status) ==> e.ServerSaid?
  {
  }

  /** Asked for more, a list with more behind it holds a page more, and shows the server's rows still. */
  lemma {:induction false} MoreIsShown(v: Viewer, start: State, events: seq<Event>, status: Status)
    requires IsViewer(v) && Invariant(v, start)
    requires var cached := Run(v, start, events).Of(status);
             !cached.stale && cached.data.Some? && HasMore(cached.data.value)
    ensures var s, t := Run(v, start, events), Step(v, Run(v, start, events), ShowMore(status));
            && t.Of(status).data.Some? && |t.Of(status).data.value| == |s.Of(status).data.value| + 1
            && Reflects(status, t.Of(status).data.value, t.Served(status), v.rules.Limit(status))
  {
    hide Run, Reflects, Serves, NextPage, IsViewer;
    EveryRunStaysInStep(v, start, events);
    var s := Run(v, start, events);
    StepKeeps(v, s, ShowMore(status));
    assert InStep(v, Step(v, s, ShowMore(status)), status);
  }
}
