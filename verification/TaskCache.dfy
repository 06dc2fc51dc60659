/**
 The task lists in the query cache, written from what the server said about one
 task at a time (`apps/portal/src/queries/taskCache.ts`). A list read while a
 change was placed has the change placed again once the read lands.
 */
module TaskCache {
  import opened Options
  import opened TaskOrder
  import opened TaskPlacement
  import Ledger

  datatype ListKey = ListKey(status: Status, scope: Scope)

  /** One cached list: its pages, and whether a read of it is in flight. */
  datatype Query = Query(data: Option<Pages>, fetching: bool)

  datatype State = State(
    heard: map<string, Ledger.Heard>, clock: nat, tasks: map<string, Option<Task>>,
    lists: map<ListKey, Query>, pending: map<ListKey, seq<string>>, me: Option<string>)

  datatype Event =
    | PlaceAnswer(task: Task, since: Option<nat>, mode: PlaceMode)
    | RemoveAnswer(id: string, since: Option<nat>, optimistic: bool)
    | ReadStarted(key: ListKey)
    | ReadLanded(key: ListKey, data: Pages)
    | ReadFailed(key: ListKey)
    | PersonKnown(me: string)

  const EMPTY := State(map[], 0, map[], map[], map[], None)

  const OPEN_PAGE_SIZE := 200
  const DONE_PAGE_SIZE := 10

  function RulesOf(scope: Scope, me: Option<string>): Rules {
    Rules(scope, me, OPEN_PAGE_SIZE, DONE_PAGE_SIZE)
  }

  function DataOf(lists: map<ListKey, Query>, key: ListKey): Option<Pages> {
    if key in lists then lists[key].data else None
  }

  function ListsOf(lists: map<ListKey, Query>, scope: Scope): Lists {
    Lists(DataOf(lists, ListKey(OpenTask, scope)), DataOf(lists, ListKey(DoneTask, scope)))
  }

  /** A set in the order its members were added. */
  function WithId(ids: seq<string>, id: string): seq<string> {
    if id in ids then ids else ids + [id]
  }

  function IdsAt(pending: map<ListKey, seq<string>>, key: ListKey): seq<string> {
    if key in pending then pending[key] else []
  }

  /**
   Writes one list's placement back. A list the placement cannot tell about is read
   again from now; a list already being read has the change waiting for its answer.
   */
  function WriteList(s: State, key: ListKey, placement: Placement, id: string, optimistic: bool): State {
    if key !in s.lists then s
    else if placement.outcome.Invalidate? then
      s.(lists := s.lists[key := s.lists[key].(fetching := true)])
    else
      var query := if placement.outcome.Unchanged? then s.lists[key] else s.lists[key].(data := placement.data);
      var written := s.(lists := s.lists[key := query]);
      if !query.fetching || optimistic then written
      else written.(pending := s.pending[key := WithId(IdsAt(s.pending, key), id)])
  }

  function ApplyToScope(s: State, scope: Scope, change: Change, mode: PlaceMode): State {
    var placements := TaskPlacement.PlaceTask(ListsOf(s.lists, scope), change, RulesOf(scope, s.me), mode);
    var first := WriteList(s, ListKey(OpenTask, scope), placements.openTasks, IdOf(change), mode.optimistic);
    WriteList(first, ListKey(DoneTask, scope), placements.doneTasks, IdOf(change), mode.optimistic)
  }

  /** Every scope some task list is cached under. */
  function ApplyToAll(s: State, change: Change, mode: PlaceMode): State {
    ApplyToScope(ApplyToScope(s, Mine, change, mode), Team, change, mode)
  }

  /** A write's answer takes its stamp when it lands; a read's hands back the one it was issued at. */
  function StampOf(s: State, since: Option<nat>): (State, nat) {
    if since.Some? then (s, since.value) else (s.(clock := s.clock + 1), s.clock + 1)
  }

  function AnswerOf(change: Change, since: nat): Ledger.Answer {
    match change
    case Found(task) => Ledger.Found(Some(task.version), since)
    case Gone(id) => Ledger.Gone(since)
  }

  /** Puts what the server answered into every cached list, unless a newer answer was placed. */
  function Admit(s: State, change: Change, since: Option<nat>, mode: PlaceMode): State {
    if mode.optimistic then ApplyToAll(s, change, mode)
    else
      var (stamped, stamp) := StampOf(s, since);
      var id, answer := IdOf(change), AnswerOf(change, stamp);
      if Ledger.IsOlder(Ledger.LastOf(s.heard, id), answer) then stamped
      else
        var heard := stamped.(heard := Ledger.Noted(s.heard, id, answer),
                              tasks := s.tasks[id := if change.Found? then Some(change.task) else None]);
        ApplyToAll(heard, change, mode)
  }

  function ChangeOf(id: string, task: Option<Task>): Change {
    if task.Some? then Found(task.value) else Gone(id)
  }

  /** The newest answers of the ids that waited, placed again in the order they came. */
  function PlaceAgain(s: State, scope: Scope, ids: seq<string>): State {
    if ids == [] then s
    else
      var before, id := PlaceAgain(s, scope, ids[..|ids| - 1]), ids[|ids| - 1];
      if id in s.tasks then ApplyToScope(before, scope, ChangeOf(id, s.tasks[id]), AS_ANSWERED) else before
  }

  function Received(s: State, key: ListKey, data: Pages): State {
    s.(lists := s.lists[key := Query(Some(data), false)], pending := s.pending - {key})
  }

  function Land(s: State, key: ListKey, data: Pages): State {
    PlaceAgain(Received(s, key, data), key.scope, IdsAt(s.pending, key))
  }

  function Step(s: State, e: Event): State {
    match e
    case PlaceAnswer(task, since, mode) => Admit(s, Found(task), since, mode)
    case RemoveAnswer(id, since, optimistic) => Admit(s, Gone(id), since, PlaceMode(optimistic, false))
    case ReadStarted(key) =>
      var query := if key in s.lists then s.lists[key] else Query(None, false);
      s.(lists := s.lists[key := query.(fetching := true)])
    case ReadLanded(key, data) => if key in s.lists && s.lists[key].fetching then Land(s, key, data) else s
    case ReadFailed(key) => if key in s.lists then s.(lists := s.lists[key := s.lists[key].(fetching := false)]) else s
    case PersonKnown(me) => s.(me := Some(me))
  }

  function Run(events: seq<Event>): State {
    if events == [] then EMPTY
    else Step(Run(events[..|events| - 1]), events[|events| - 1])
  }

  /** The task as placed, when that is at or past `version`; never one a removal took out. */
  function HeldTask(s: State, id: string, version: nat): Option<Task> {
    if Ledger.HoldsAt(Ledger.LastOf(s.heard, id), version) && id in s.tasks then s.tasks[id] else None
  }

  // ------------------------------------------------------------ the cache and the ledger agree

  /** The kept task is null exactly when the ledger says gone, and otherwise has the ledger's version. */
  ghost predicate Agree(s: State) {
    && s.tasks.Keys == s.heard.Keys
    && (forall id :: id in s.tasks ==> (s.tasks[id].None? <==> s.heard[id].gone))
    && (forall id :: id in s.tasks && s.tasks[id].Some? ==>
          s.tasks[id].value.id == id && s.heard[id].version == Some(s.tasks[id].value.version))
  }

  lemma WriteListKeepsHeard(s: State, key: ListKey, placement: Placement, id: string, optimistic: bool)
    ensures var t := WriteList(s, key, placement, id, optimistic);
            t.heard == s.heard && t.tasks == s.tasks && t.me == s.me
  {
  }

  lemma ScopeKeepsHeard(s: State, scope: Scope, change: Change, mode: PlaceMode)
    ensures var t := ApplyToScope(s, scope, change, mode); t.heard == s.heard && t.tasks == s.tasks && t.me == s.me
  {
    hide WriteList, TaskPlacement.PlaceTask;
    var placements := TaskPlacement.PlaceTask(ListsOf(s.lists, scope), change, RulesOf(scope, s.me), mode);
    WriteListKeepsHeard(s, ListKey(OpenTask, scope), placements.openTasks, IdOf(change), mode.optimistic);
    var first := WriteList(s, ListKey(OpenTask, scope), placements.openTasks, IdOf(change), mode.optimistic);
    WriteListKeepsHeard(first, ListKey(DoneTask, scope), placements.doneTasks, IdOf(change), mode.optimistic);
  }

  lemma {:induction false} AgainKeepsHeard(s: State, scope: Scope, ids: seq<string>)
    ensures var t := PlaceAgain(s, scope, ids); t.heard == s.heard && t.tasks == s.tasks && t.me == s.me
  {
    hide ApplyToScope;
    if ids != [] {
      var front, id := ids[..|ids| - 1], ids[|ids| - 1];
      AgainKeepsHeard(s, scope, front);
      if id in s.tasks {
        ScopeKeepsHeard(PlaceAgain(s, scope, front), scope, ChangeOf(id, s.tasks[id]), AS_ANSWERED);
      }
    }
  }

  lemma AllKeepsHeard(s: State, change: Change, mode: PlaceMode)
    ensures var t := ApplyToAll(s, change, mode); t.heard == s.heard && t.tasks == s.tasks && t.me == s.me
  {
    hide ApplyToScope;
    ScopeKeepsHeard(s, Mine, change, mode);
    ScopeKeepsHeard(ApplyToScope(s, Mine, change, mode), Team, change, mode);
  }

  /** What is heard after one event: at most one answer, noted by the ledger and the cache together. */
  lemma {:induction false} AdmitHears(s: State, change: Change, since: Option<nat>, mode: PlaceMode)
    ensures var t := Admit(s, change, since, mode);
            var id, answer := IdOf(change), AnswerOf(change, StampOf(s, since).1);
            if mode.optimistic || Ledger.IsOlder(Ledger.LastOf(s.heard, id), answer)
            then t.heard == s.heard && t.tasks == s.tasks
            else && t.heard == Ledger.Noted(s.heard, id, answer)
                 && t.tasks == s.tasks[id := if change.Found? then Some(change.task) else None]
  {
    hide ApplyToAll, Ledger.Noted;
    AllKeepsHeard(s, change, mode);
    if !mode.optimistic {
      var (stamped, stamp) := StampOf(s, since);
      var id, answer := IdOf(change), AnswerOf(change, stamp);
      AllKeepsHeard(stamped.(heard := Ledger.Noted(s.heard, id, answer),
                             tasks := s.tasks[id := if change.Found? then Some(change.task) else None]), change, mode);
    }
  }

  lemma AdmitAgrees(s: State, change: Change, since: Option<nat>, mode: PlaceMode)
    requires Agree(s)
    ensures Agree(Admit(s, change, since, mode))
  {
    hide Admit;
    AdmitHears(s, change, since, mode);
  }

  lemma StepAgrees(s: State, e: Event)
    requires Agree(s)
    ensures Agree(Step(s, e))
  {
    hide Admit, PlaceAgain;
    match e
    case PlaceAnswer(task, since, mode) => AdmitAgrees(s, Found(task), since, mode);
    case RemoveAnswer(id, since, optimistic) => AdmitAgrees(s, Gone(id), since, PlaceMode(optimistic, false));
    case ReadLanded(key, data) =>
      AgainKeepsHeard(Received(s, key, data), key.scope, IdsAt(s.pending, key));
    case _ =>
  }

  /** Over every run the cache and its ledger agree. */
  lemma {:induction false} EveryRunAgrees(events: seq<Event>)
    ensures Agree(Run(events))
  {
    hide Step, Agree;
    if events != [] {
      EveryRunAgrees(events[..|events| - 1]);
      StepAgrees(Run(events[..|events| - 1]), events[|events| - 1]);
    } else {
      NothingAgrees();
    }
  }

  lemma NothingAgrees()
    ensures Agree(EMPTY)
  {
  }

  /** The event is a removal of this task that the ledger admits. */
  ghost predicate Removes(s: State, e: Event, id: string) {
    && e.RemoveAnswer? && e.id == id && !e.optimistic
    && !Ledger.IsOlder(Ledger.LastOf(s.heard, id), Ledger.Gone(StampOf(s, e.since).1))
  }

  lemma AdmitKeepsHeld(s: State, change: Change, since: Option<nat>, mode: PlaceMode, id: string, version: nat)
    requires Agree(s) && HeldTask(s, id, version).Some?
    requires change.Gone? && change.id == id && !mode.optimistic ==>
               Ledger.IsOlder(Ledger.LastOf(s.heard, id), Ledger.Gone(StampOf(s, since).1))
    ensures HeldTask(Admit(s, change, since, mode), id, version).Some?
  {
    hide Admit;
    AdmitHears(s, change, since, mode);
  }

  /** A held task stays held at its version until a removal of it is admitted. */
  lemma StepKeepsHeld(s: State, e: Event, id: string, version: nat)
    requires Agree(s) && HeldTask(s, id, version).Some? && !Removes(s, e, id)
    ensures HeldTask(Step(s, e), id, version).Some?
  {
    hide Admit, PlaceAgain, Agree, Ledger.IsOlder;
    match e
    case PlaceAnswer(task, since, mode) => AdmitKeepsHeld(s, Found(task), since, mode, id, version);
    case RemoveAnswer(other, since, optimistic) =>
      AdmitKeepsHeld(s, Gone(other), since, PlaceMode(optimistic, false), id, version);
    case ReadLanded(key, data) =>
      AgainKeepsHeard(Received(s, key, data), key.scope, IdsAt(s.pending, key));
    case _ =>
  }

  /** Over any stretch of a run in which no removal of a task is admitted, a held version stays held. */
  lemma {:induction false} HeldUntilRemoved(before: seq<Event>, more: seq<Event>, id: string, version: nat)
    requires HeldTask(Run(before), id, version).Some?
    requires forall k :: 0 <= k < |more| ==> !Removes(Run(before + more[..k]), more[k], id)
    ensures HeldTask(Run(before + more), id, version).Some?
  {
    hide Run, Step, Agree, HeldTask, Removes;
    if more == [] {
      assert before + more == before;
    } else {
      var front, e := more[..|more| - 1], more[|more| - 1];
      assert forall k :: 0 <= k < |front| ==> front[..k] == more[..k] && front[k] == more[k];
      HeldUntilRemoved(before, front, id, version);
      EveryRunAgrees(before + front);
      assert more[..|front|] == front;
      StepKeepsHeld(Run(before + front), e, id, version);
      RunMore(before + front, e);
      assert (before + front) + [e] == before + more;
    }
  }

  lemma RunMore(events: seq<Event>, e: Event)
    ensures Run(events + [e]) == Step(Run(events), e)
  {
    hide Step;
    assert (events + [e])[..|events|] == events;
  }

  /**
   Over every run a task is held at a version exactly when the newest answer heard of it
   is no removal and has that version or a greater one; then it is that answer's task.
   */
  lemma {:induction false} HeldExactlyWhenHeard(events: seq<Event>, id: string, version: nat)
    ensures var s := Run(events);
            var isHeld := id in s.tasks && s.tasks[id].Some? && s.tasks[id].value.version >= version;
            HeldTask(s, id, version) == if isHeld then s.tasks[id] else None
  {
    hide Run;
    EveryRunAgrees(events);
  }

  /**
   A write's answer takes its stamp when it lands: once a removal has, no read issued before
   it brings the task back, whatever that read answers.
   */
  lemma ARemovalOutdatesEarlierReads(s: State, task: Task, since: nat, mode: PlaceMode)
    requires !Ledger.IsOlder(Ledger.LastOf(s.heard, task.id), Ledger.Gone(StampOf(s, None).1))
    requires since <= s.clock && !mode.optimistic
    ensures var t := Step(s, RemoveAnswer(task.id, None, false));
            && task.id in t.heard && t.heard[task.id].gone && t.heard[task.id].since > s.clock
            && Step(t, PlaceAnswer(task, Some(since), mode)) == t
  {
    hide Admit, ApplyToAll;
    AdmitHears(s, Gone(task.id), None, PlaceMode(false, false));
    OlderIsRefused(Step(s, RemoveAnswer(task.id, None, false)), task, since, mode);
  }

  lemma OlderIsRefused(s: State, task: Task, since: nat, mode: PlaceMode)
    requires task.id in s.heard && s.heard[task.id].gone && since < s.heard[task.id].since && !mode.optimistic
    ensures Admit(s, Found(task), Some(since), mode) == s
  {
    hide ApplyToAll;
  }

  // ------------------------------------------------------------ the cache itself

  predicate IsCached(lists: map<ListKey, Query>, scope: Scope) {
    ListKey(OpenTask, scope) in lists || ListKey(DoneTask, scope) in lists
  }

  lemma NothingToWrite(s: State, scope: Scope, change: Change, mode: PlaceMode)
    requires !IsCached(s.lists, scope)
    ensures ApplyToScope(s, scope, change, mode) == s
  {
    hide TaskPlacement.PlaceTask;
  }

  /** The answers heard through one query client, and the lists they are written into. */
  class Cache {
    const ledger: Ledger.Ledger
    var tasks: map<string, Option<Task>>
    var lists: map<ListKey, Query>
    var pending: map<ListKey, seq<string>>
    var me: Option<string>

    constructor ()
      ensures View() == EMPTY && fresh(ledger)
    {
      ledger := new Ledger.Ledger();
      tasks, lists, pending, me := map[], map[], map[], None;
    }

    ghost function View(): State
      reads this, ledger
    {
      State(ledger.heard, ledger.clock, tasks, lists, pending, me)
    }

    method ApplyToList(key: ListKey, placement: Placement, id: string, optimistic: bool)
      modifies this`lists, this`pending
      ensures View() == WriteList(old(View()), key, placement, id, optimistic)
    {
      if key !in lists {
        return;
      }
      if placement.outcome.Invalidate? {
        lists := lists[key := lists[key].(fetching := true)];
        return;
      }
      if !placement.outcome.Unchanged? {
        lists := lists[key := lists[key].(data := placement.data)];
      }
      if lists[key].fetching && !optimistic {
        var ids := if key in pending then pending[key] else [];
        pending := pending[key := if id in ids then ids else ids + [id]];
      }
    }

    method Apply(scope: Scope, change: Change, mode: PlaceMode)
      modifies this`lists, this`pending
      ensures View() == ApplyToScope(old(View()), scope, change, mode)
    {
      hide WriteList, TaskPlacement.PlaceTask;
      var rules := RulesOf(scope, me);
      var placements := TaskPlacement.PlaceTask(ListsOf(lists, scope), change, rules, mode);
      ApplyToList(ListKey(OpenTask, scope), placements.openTasks, IdOf(change), mode.optimistic);
      ApplyToList(ListKey(DoneTask, scope), placements.doneTasks, IdOf(change), mode.optimistic);
    }

    method ApplyEverywhere(change: Change, mode: PlaceMode)
      modifies this`lists, this`pending
      ensures View() == ApplyToAll(old(View()), change, mode)
    {
      hide ApplyToScope;
      NothingToWriteUncached(View(), Mine, change, mode);
      if IsCached(lists, Mine) {
        Apply(Mine, change, mode);
      }
      NothingToWriteUncached(View(), Team, change, mode);
      if IsCached(lists, Team) {
        Apply(Team, change, mode);
      }
    }

    method Place(task: Task, since: Option<nat>, mode: PlaceMode)
      modifies this, ledger
      ensures View() == Step(old(View()), PlaceAnswer(task, since, mode))
    {
      hide ApplyToAll, Ledger.Noted, Ledger.IsOlder;
      if !mode.optimistic {
        var stamp: nat;
        if since.Some? {
          stamp := since.value;
        } else {
          stamp := ledger.Stamp();
        }
        var admitted := ledger.Admit(task.id, Some(task.version), stamp);
        if !admitted {
          Ledger.RefusedIsNotNoted(old(ledger.heard), task.id, Ledger.Found(Some(task.version), stamp));
          return;
        }
        tasks := tasks[task.id := Some(task)];
      }
      ApplyEverywhere(Found(task), mode);
    }

    method Remove(id: string, since: Option<nat>, optimistic: bool)
      modifies this, ledger
      ensures View() == Step(old(View()), RemoveAnswer(id, since, optimistic))
    {
      hide ApplyToAll, Ledger.Noted, Ledger.IsOlder;
      if !optimistic {
        var stamp: nat;
        if since.Some? {
          stamp := since.value;
        } else {
          stamp := ledger.Stamp();
        }
        var admitted := ledger.AdmitGone(id, stamp);
        if !admitted {
          Ledger.RefusedIsNotNoted(old(ledger.heard), id, Ledger.Gone(stamp));
          return;
        }
        tasks := tasks[id := None];
      }
      ApplyEverywhere(Gone(id), PlaceMode(optimistic, false));
    }

    method OnReadStarted(key: ListKey)
      modifies this`lists
      ensures View() == Step(old(View()), ReadStarted(key))
    {
      var query := if key in lists then lists[key] else Query(None, false);
      lists := lists[key := query.(fetching := true)];
    }

    method OnReadFailed(key: ListKey)
      modifies this`lists
      ensures View() == Step(old(View()), ReadFailed(key))
    {
      if key in lists {
        lists := lists[key := lists[key].(fetching := false)];
      }
    }

    method OnReadLanded(key: ListKey, data: Pages)
      modifies this`lists, this`pending
      ensures View() == Step(old(View()), ReadLanded(key, data))
    {
      hide ApplyToScope;
      if key !in lists || !lists[key].fetching {
        return;
      }
      var ids := if key in pending then pending[key] else [];
      lists := lists[key := Query(Some(data), false)];
      pending := pending - {key};
      ghost var landed := View();
      assert landed == Received(old(View()), key, data);
      for i := 0 to |ids|
        invariant View() == PlaceAgain(landed, key.scope, ids[..i])
      {
        AgainKeepsHeard(landed, key.scope, ids[..i]);
        var id := ids[i];
        assert ids[..i + 1][..|ids[..i + 1]| - 1] == ids[..i];
        if id in tasks {
          Apply(key.scope, if tasks[id].Some? then Found(tasks[id].value) else Gone(id), AS_ANSWERED);
        }
      }
      assert ids[..|ids|] == ids;
    }

    method Held(id: string, version: nat) returns (task: Option<Task>)
      ensures task == HeldTask(View(), id, version)
    {
      var held := ledger.Holds(id, version);
      task := if held && id in tasks then tasks[id] else None;
    }
  }

  lemma NothingToWriteUncached(s: State, scope: Scope, change: Change, mode: PlaceMode)
    ensures !IsCached(s.lists, scope) ==> ApplyToScope(s, scope, change, mode) == s
  {
    if !IsCached(s.lists, scope) {
      NothingToWrite(s, scope, change, mode);
    }
  }
}
