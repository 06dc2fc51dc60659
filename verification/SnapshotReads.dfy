/**
 A list read while changes were placed: once the read lands, the list is the server's as
 the read saw it with everything heard meanwhile (`apps/portal/src/queries/taskCache.ts`).
 */
module SnapshotReads {
  import opened Options
  import opened TaskOrder
  import opened TaskPlacement
  import opened PlacementTheorems
  import opened TaskCache
  import opened TaskLanding

  /** What the list comes to: the server's tasks as the read saw them, with the newest heard of those that waited. */
  function AsHeard(world: World, landed: State, scope: Scope, ids: seq<string>): World {
    if ids == [] then world
    else
      var before, id := AsHeard(world, landed, scope, ids[..|ids| - 1]), ids[|ids| - 1];
      if id !in landed.tasks || HeldAsNew(landed.lists, scope, ChangeOf(id, landed.tasks[id])) then before
      else Applied(before, ChangeOf(id, landed.tasks[id]))
  }

  /** The list holds a window of the server's tasks, up to its edge. */
  ghost predicate Follows(s: State, key: ListKey, world: World, person: string) {
    var data := DataOf(s.lists, key);
    && Keyed(world) && data.Some? && data.value != []
    && exists list :: IsServerList(world, key.status, key.scope, person, list)
                      && Reflects(key.status, data.value, list, RulesOf(key.scope, s.me).Limit(key.status))
  }

  /** A change that finds the task already held as new writes nothing. */
  lemma HeldWritesNothing(s: State, change: Change, key: ListKey)
    requires HeldAsNew(s.lists, key.scope, change)
    ensures var after := ApplyToScope(s, key.scope, change, AS_ANSWERED).lists;
            DataOf(after, key) == DataOf(s.lists, key) && BeingRead(after, key) == BeingRead(s.lists, key)
  {
    hide ApplyToScope, PlaceIn, HeldAtOrAbove;
    ScopeWrites(s, key.scope, change, AS_ANSWERED);
    assert key.status.OpenTask? || key.status.DoneTask?;
  }

  /** Any other is placed in the list by itself. */
  lemma NewsIsPlaced(s: State, change: Change, key: ListKey)
    requires !HeldAsNew(s.lists, key.scope, change) && key in s.lists
    ensures var after := ApplyToScope(s, key.scope, change, AS_ANSWERED).lists;
            var placement := PlaceIn(DataOf(s.lists, key), key.status, change, RulesOf(key.scope, s.me), AS_ANSWERED);
            && key in after && DataOf(after, key) == placement.data
            && BeingRead(after, key) == (BeingRead(s.lists, key) || placement.outcome.Invalidate?)
  {
    hide ApplyToScope, PlaceIn, HeldAtOrAbove;
    ScopeWrites(s, key.scope, change, AS_ANSWERED);
    assert key.status.OpenTask? || key.status.DoneTask?;
  }

  lemma AppliedIsKeyed(world: World, change: Change)
    requires Keyed(world)
    ensures Keyed(Applied(world, change))
  {
  }

  /** One change placed: unless it has the list read again, the list follows the server's change. */
  lemma OneChangeFollows(s: State, change: Change, key: ListKey, world: World, person: string)
    requires RulesAgree(RulesOf(key.scope, s.me), key.scope, person)
    requires Follows(s, key, world, person) && !HeldAsNew(s.lists, key.scope, change)
    ensures var t := ApplyToScope(s, key.scope, change, AS_ANSWERED);
            BeingRead(t.lists, key) || Follows(t, key, Applied(world, change), person)
  {
    hide ApplyToScope, PlaceIn, HeldAsNew, Reflects, IsServerList, Changed, Sorted, DistinctIds, Keyed, Applied;
    var t := ApplyToScope(s, key.scope, change, AS_ANSWERED);
    var rules, data := RulesOf(key.scope, s.me), DataOf(s.lists, key);
    var list :| IsServerList(world, key.status, key.scope, person, list)
                && Reflects(key.status, data.value, list, rules.Limit(key.status));
    NewsIsPlaced(s, change, key);
    ScopeKeepsHeard(s, key.scope, change, AS_ANSWERED);
    ServerListHasDistinctIds(world, key.status, key.scope, person, list);
    SortedServerList(world, key.status, key.scope, person, list);
    PlaceInRefines(key.status, data.value, list, change, rules, key.scope, person);
    ServerListChanges(world, key.status, key.scope, person, list, change);
    AppliedIsKeyed(world, change);
    if !BeingRead(t.lists, key) {
      ReflectsIsNotEmpty(key.status, DataOf(t.lists, key).value, Changed(list, key.status, key.scope, person, change),
                         rules.Limit(key.status));
    }
  }

  lemma ReflectsIsNotEmpty(status: Status, pages: Pages, list: seq<Task>, limit: nat)
    requires Reflects(status, pages, list, limit)
    ensures pages != []
  {
  }

  lemma SameDataFollows(s: State, t: State, key: ListKey, world: World, person: string)
    requires Follows(s, key, world, person) && DataOf(t.lists, key) == DataOf(s.lists, key) && t.me == s.me
    ensures Follows(t, key, world, person)
  {
  }

  lemma {:induction false} PlaceAgainFollows(s: State, key: ListKey, ids: seq<string>, world: World, person: string)
    requires RulesAgree(RulesOf(key.scope, s.me), key.scope, person) && Distinct(ids) && TasksKeyed(s.tasks)
    requires Follows(s, key, world, person)
    ensures var t := PlaceAgain(s, key.scope, ids);
            BeingRead(t.lists, key) || Follows(t, key, AsHeard(world, s, key.scope, ids), person)
  {
    hide ApplyToScope, Follows, HeldAsNew, Untouched, SaysTheChange, RulesAgree, Applied;
    if ids != [] {
      var front, last := ids[..|ids| - 1], ids[|ids| - 1];
      PlaceAgainFollows(s, key, front, world, person);
      AgainKeepsHeard(s, key.scope, front);
      var before, seen := PlaceAgain(s, key.scope, front), AsHeard(world, s, key.scope, front);
      if last in s.tasks {
        var change := ChangeOf(last, s.tasks[last]);
        PlaceAgainSays(s, key, front);
        assert ids == front + [last];
        UntouchedHolds(s.lists, before.lists, key.scope, change);
        ScopeKeepsHeard(before, key.scope, change, AS_ANSWERED);
        if BeingRead(before.lists, key) {
          StillBeingRead(before, change, key);
        } else if HeldAsNew(before.lists, key.scope, change) {
          HeldWritesNothing(before, change, key);
          SameDataFollows(before, ApplyToScope(before, key.scope, change, AS_ANSWERED), key, seen, person);
        } else {
          OneChangeFollows(before, change, key, seen, person);
        }
      }
    }
  }

  lemma StillBeingRead(s: State, change: Change, key: ListKey)
    requires BeingRead(s.lists, key)
    ensures BeingRead(ApplyToScope(s, key.scope, change, AS_ANSWERED).lists, key)
  {
    hide ApplyToScope;
    ScopeKeepsRows(s, key.scope, change, key.status);
  }

  /**
   Over every run, when a read that saw some state of the server's tasks lands, the list
   is the server's as the read saw it with the newest heard of every task that waited,
   in order and up to its edge, or it is read again. Only a task the scope's lists held
   as new by then stays as the read saw it.
   */
  lemma {:induction false} ALandedListIsTheSnapshotAsHeard(
      events: seq<Event>, key: ListKey, data: Pages, world: World, person: string)
    requires BeingRead(Run(events).lists, key) && RulesAgree(RulesOf(key.scope, Run(events).me), key.scope, person)
    requires Follows(Received(Run(events), key, data), key, world, person)
    ensures var s := Run(events);
            var landed, t := Received(s, key, data), Step(s, ReadLanded(key, data));
            || BeingRead(t.lists, key)
            || Follows(t, key, AsHeard(world, landed, key.scope, IdsAt(s.pending, key)), person)
  {
    hide PlaceAgain, Run, Follows, AsHeard, Distinct, RulesAgree;
    var s := Run(events);
    EveryRunAgrees(events);
    EveryRunWaits(events);
    NoneWaits();
    PlaceAgainFollows(Received(s, key, data), key, IdsAt(s.pending, key), world, person);
  }

  /** Task by task: the newest heard of those that waited and were not held as new, the read's of the others. */
  ghost predicate HeardOrSeen(heard: World, world: World, landed: State, scope: Scope, ids: seq<string>, id: string) {
    if id in ids && id in landed.tasks && !HeldAsNew(landed.lists, scope, ChangeOf(id, landed.tasks[id]))
    then (id in heard <==> landed.tasks[id].Some?) && (id in heard ==> Some(heard[id]) == landed.tasks[id])
    else (id in heard <==> id in world) && (id in heard ==> heard[id] == world[id])
  }

  lemma HeardOrSeenMore(
      before: World, world: World, landed: State, scope: Scope, front: seq<string>, last: string, id: string)
    requires HeardOrSeen(before, world, landed, scope, front, id) && TasksKeyed(landed.tasks)
    requires last !in front
    ensures var heard := if last !in landed.tasks || HeldAsNew(landed.lists, scope, ChangeOf(last, landed.tasks[last]))
                         then before else Applied(before, ChangeOf(last, landed.tasks[last]));
            HeardOrSeen(heard, world, landed, scope, front + [last], id)
  {
    hide HeldAsNew;
    assert id in front + [last] <==> id in front || id == last;
  }

  lemma {:induction false} AsHeardTaskByTask(world: World, landed: State, scope: Scope, ids: seq<string>)
    requires Distinct(ids) && TasksKeyed(landed.tasks)
    ensures forall id :: HeardOrSeen(AsHeard(world, landed, scope, ids), world, landed, scope, ids, id)
  {
    hide HeldAsNew, HeardOrSeen, Applied;
    if ids == [] {
      NothingHeard(world, landed, scope);
    } else {
      var front, last := ids[..|ids| - 1], ids[|ids| - 1];
      AsHeardTaskByTask(world, landed, scope, front);
      assert ids == front + [last] && last !in front;
      forall id
        ensures HeardOrSeen(AsHeard(world, landed, scope, ids), world, landed, scope, ids, id)
      {
        HeardOrSeenMore(AsHeard(world, landed, scope, front), world, landed, scope, front, last, id);
      }
    }
  }

  lemma NothingHeard(world: World, landed: State, scope: Scope)
    ensures forall id :: HeardOrSeen(world, world, landed, scope, [], id)
  {
  }

  /** The server's task now: as last heard when it waited, as the read saw it when not, or when held as new. */
  ghost predicate IsNowAt(current: World, world: World, landed: State, scope: Scope, ids: seq<string>, id: string) {
    var waited := id in ids && id in landed.tasks;
    && (waited ==> (id in current <==> landed.tasks[id].Some?))
    && (waited && id in current ==> Some(current[id]) == landed.tasks[id])
    && ((waited && !HeldAsNew(landed.lists, scope, ChangeOf(id, landed.tasks[id])))
        || ((id in current <==> id in world) && (id in current ==> current[id] == world[id])))
  }

  /**
   The server's tasks now: those that waited as last heard, the others as the read saw
   them. A task the scope's lists held as new is one the read saw as it is now.
   */
  ghost predicate IsNow(current: World, world: World, landed: State, scope: Scope, ids: seq<string>) {
    forall id :: IsNowAt(current, world, landed, scope, ids, id)
  }

  lemma SameNow(
      heard: World, current: World, world: World, landed: State, scope: Scope, ids: seq<string>, id: string)
    requires HeardOrSeen(heard, world, landed, scope, ids, id) && IsNowAt(current, world, landed, scope, ids, id)
    ensures (id in heard <==> id in current) && (id in heard ==> heard[id] == current[id])
  {
    hide HeldAsNew;
  }

  lemma NowIsAsHeard(current: World, world: World, landed: State, scope: Scope, ids: seq<string>)
    requires Distinct(ids) && TasksKeyed(landed.tasks) && IsNow(current, world, landed, scope, ids)
    ensures AsHeard(world, landed, scope, ids) == current
  {
    hide HeldAsNew, AsHeard, HeardOrSeen, IsNowAt, Distinct;
    AsHeardTaskByTask(world, landed, scope, ids);
    var heard := AsHeard(world, landed, scope, ids);
    forall id: string
      ensures (id in heard <==> id in current) && (id in heard ==> heard[id] == current[id])
    {
      SameNow(heard, current, world, landed, scope, ids, id);
    }
  }

  /**
   So when what changed on the server since the read saw it is what was heard meanwhile,
   the list that lands, however late, is the server's list as it is now, up to its edge,
   or it is read again.
   */
  lemma {:induction false} ALateReadShowsTheServerNow(
      events: seq<Event>, key: ListKey, data: Pages, world: World, current: World, person: string)
    requires BeingRead(Run(events).lists, key) && RulesAgree(RulesOf(key.scope, Run(events).me), key.scope, person)
    requires Follows(Received(Run(events), key, data), key, world, person)
    requires IsNow(current, world, Received(Run(events), key, data), key.scope, IdsAt(Run(events).pending, key))
    ensures var t := Step(Run(events), ReadLanded(key, data));
            BeingRead(t.lists, key) || Follows(t, key, current, person)
  {
    hide PlaceAgain, Run, Follows, AsHeard, Distinct, RulesAgree, IsNow;
    var s := Run(events);
    EveryRunAgrees(events);
    EveryRunWaits(events);
    NoneWaits();
    ALandedListIsTheSnapshotAsHeard(events, key, data, world, person);
    NowIsAsHeard(current, world, Received(s, key, data), key.scope, IdsAt(s.pending, key));
  }
}
