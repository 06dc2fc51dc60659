/**
 The members in the query cache, written from the one read a push about a member
 leads to (`apps/portal/src/queries/userCache.ts`). A query read while a member was
 placed has the member written into it again once the read lands.
 */
module MemberCache {
  import opened Options
  import opened Ranks
  import opened UserPages
  import Ledger

  /** The person's own record, or a query under the members' key. */
  datatype Key = MeKey | UsersKey(name: string)

  datatype Data = MeData(user: User, org: string) | PagesData(pages: Pages) | OtherData

  /**
   One query: what it holds, whether it is being read, and the members waiting for the
   read to land. `placed` is the history the landing claim speaks of: the members
   written since the read was issued.
   */
  datatype Query = Query(data: Option<Data>, fetching: bool, waiting: seq<string>, placed: set<string>)

  /** `watching` is whether landings are listened for. */
  datatype State = State(
    heard: map<string, Ledger.Heard>, clock: nat, users: map<string, Option<User>>,
    queries: map<Key, Query>, watching: bool)

  datatype Event =
    | TakeStamp
    | PlaceAnswer(user: User, since: nat)
    | RemoveAnswer(id: string, since: nat)
    | ReadStarted(key: Key)
    | ReadLanded(key: Key, data: Data)
    | ReadFailed(key: Key)
    | ReadCollections
    | Stop

  const EMPTY := State(map[], 0, map[], map[], false)

  const UNREAD := Query(None, false, [], {})

  /** One query's data with the member written in; nothing when its shape does not say where the member goes. */
  function Rewrite(key: Key, data: Data, id: string, user: Option<User>): Option<Data> {
    if key.MeKey? then
      Some(if data.MeData? && user.Some? && data.user.id == id then data.(user := user.value) else data)
    else if !data.PagesData? then None
    else Some(PagesData(if user.Some? then PlaceInPages(data.pages, user.value) else RemoveFromPages(data.pages, id)))
  }

  /** A read of the query issued now; a first read still under way goes on instead. */
  function Restarted(query: Query): Query {
    if query.fetching && query.data.None? then query else query.(fetching := true, placed := {})
  }

  function Held(query: Query, id: string): Query {
    query.(waiting := if id in query.waiting then query.waiting else query.waiting + [id],
           placed := query.placed + {id})
  }

  function WriteInto(key: Key, query: Query, id: string, user: Option<User>): Query {
    var changed := if query.data.Some? then Rewrite(key, query.data.value, id, user) else None;
    if query.data.Some? && changed.None? then Restarted(query)
    else
      var written := if query.data.Some? then query.(data := changed) else query;
      if written.fetching then Held(written, id) else written
  }

  predicate SomeWaits(queries: map<Key, Query>) {
    exists key :: key in queries && queries[key].waiting != []
  }

  function Write(s: State, id: string, user: Option<User>): State {
    var queries := map key | key in s.queries :: WriteInto(key, s.queries[key], id, user);
    s.(users := s.users[id := user], queries := queries, watching := s.watching || SomeWaits(queries))
  }

  /** The members that waited, written in turn as last heard. */
  function WriteAgain(key: Key, query: Query, users: map<string, Option<User>>, ids: seq<string>): Query {
    if ids == [] then query
    else
      var before, id := WriteAgain(key, query, users, ids[..|ids| - 1]), ids[|ids| - 1];
      if id in users then WriteInto(key, before, id, users[id]) else before
  }

  function Received(data: Data): Query {
    Query(Some(data), false, [], {})
  }

  function Land(s: State, key: Key, data: Data): State
    requires key in s.queries
  {
    if !s.watching then s.(queries := s.queries[key := Received(data).(waiting := s.queries[key].waiting)])
    else
      var queries := s.queries[key := WriteAgain(key, Received(data), s.users, s.queries[key].waiting)];
      s.(queries := queries, watching := SomeWaits(queries))
  }

  function Admit(s: State, id: string, user: Option<User>, answer: Ledger.Answer): State {
    if Ledger.IsOlder(Ledger.LastOf(s.heard, id), answer) then s
    else Write(s.(heard := Ledger.Noted(s.heard, id, answer)), id, user)
  }

  function Step(s: State, e: Event): State {
    match e
    case TakeStamp => s.(clock := s.clock + 1)
    case PlaceAnswer(user, since) => Admit(s, user.id, Some(user), Ledger.Found(None, since))
    case RemoveAnswer(id, since) => Admit(s, id, None, Ledger.Gone(since))
    case ReadStarted(key) =>
      s.(queries := s.queries[key := Restarted(if key in s.queries then s.queries[key] else UNREAD)])
    case ReadLanded(key, data) => if key in s.queries && s.queries[key].fetching then Land(s, key, data) else s
    case ReadFailed(key) =>
      if key in s.queries then s.(queries := s.queries[key := s.queries[key].(fetching := false)]) else s
    case ReadCollections => s.(queries := map key | key in s.queries :: Restarted(s.queries[key]))
    case Stop =>
      s.(users := map[], watching := false,
         queries := map key | key in s.queries :: s.queries[key].(waiting := [], placed := {}))
  }

  function Run(events: seq<Event>): State {
    if events == [] then EMPTY
    else Step(Run(events[..|events| - 1]), events[|events| - 1])
  }

  // ------------------------------------------------------------ landings are listened for

  ghost predicate QueryWaits(query: Query, users: map<string, Option<User>>) {
    forall id :: id in query.placed ==> id in query.waiting && id in users
  }

  /** Every member written during a read waits for it, and landings are listened for while any waits. */
  ghost predicate WaitersAreWatched(s: State) {
    && (s.watching <==> SomeWaits(s.queries))
    && forall key :: key in s.queries ==> QueryWaits(s.queries[key], s.users)
  }

  lemma WriteIntoWaits(key: Key, query: Query, id: string, user: Option<User>, users: map<string, Option<User>>)
    requires QueryWaits(query, users) && id in users
    ensures QueryWaits(WriteInto(key, query, id, user), users)
    ensures query.waiting <= WriteInto(key, query, id, user).waiting
  {
    hide Rewrite;
  }

  lemma WriteWaits(s: State, id: string, user: Option<User>)
    requires WaitersAreWatched(s)
    ensures WaitersAreWatched(Write(s, id, user))
  {
    hide WriteInto;
    var after := Write(s, id, user);
    forall key | key in s.queries
      ensures QueryWaits(s.queries[key], after.users)
      ensures QueryWaits(after.queries[key], after.users) && s.queries[key].waiting <= after.queries[key].waiting
    {
      assert QueryWaits(s.queries[key], s.users);
      WriteIntoWaits(key, s.queries[key], id, user, after.users);
    }
    if s.watching {
      var key :| key in s.queries && s.queries[key].waiting != [];
      assert key in after.queries && after.queries[key].waiting != [];
    }
  }

  lemma {:induction false} WriteAgainWaits(key: Key, query: Query, users: map<string, Option<User>>, ids: seq<string>)
    requires QueryWaits(query, users)
    ensures QueryWaits(WriteAgain(key, query, users, ids), users)
  {
    hide WriteInto, QueryWaits;
    if ids != [] {
      var front, last := ids[..|ids| - 1], ids[|ids| - 1];
      WriteAgainWaits(key, query, users, front);
      if last in users {
        WriteIntoWaits(key, WriteAgain(key, query, users, front), last, users[last], users);
      }
    }
  }

  lemma LandWaits(s: State, key: Key, data: Data)
    requires WaitersAreWatched(s) && key in s.queries
    ensures WaitersAreWatched(Land(s, key, data))
  {
    hide WriteAgain;
    WriteAgainWaits(key, Received(data), s.users, s.queries[key].waiting);
    assert QueryWaits(Received(data).(waiting := s.queries[key].waiting), s.users);
    if !s.watching {
      assert s.queries[key].waiting == [];
      assert forall other :: other in s.queries ==> s.queries[other].waiting == [];
    }
  }

  lemma RestartWaits(s: State, queries: map<Key, Query>)
    requires WaitersAreWatched(s) && s.queries.Keys <= queries.Keys
    requires forall key :: key in queries ==>
               queries[key].waiting == (if key in s.queries then s.queries[key].waiting else [])
               && queries[key].placed <= (if key in s.queries then s.queries[key].placed else {})
    ensures WaitersAreWatched(s.(queries := queries))
  {
    if SomeWaits(s.queries) {
      var key :| key in s.queries && s.queries[key].waiting != [];
      assert key in queries && queries[key].waiting != [];
    }
    forall key | key in queries
      ensures QueryWaits(queries[key], s.users)
    {
      assert key in s.queries ==> QueryWaits(s.queries[key], s.users);
    }
  }

  lemma StepWatches(s: State, e: Event)
    requires WaitersAreWatched(s)
    ensures WaitersAreWatched(Step(s, e))
  {
    hide Write, Land, WaitersAreWatched, Ledger.IsOlder, Ledger.Noted, SomeWaits;
    match e
    case PlaceAnswer(user, since) =>
      var heard := s.(heard := Ledger.Noted(s.heard, user.id, Ledger.Found(None, since)));
      SameWatch(s, heard);
      WriteWaits(heard, user.id, Some(user));
    case RemoveAnswer(id, since) =>
      var heard := s.(heard := Ledger.Noted(s.heard, id, Ledger.Gone(since)));
      SameWatch(s, heard);
      WriteWaits(heard, id, None);
    case ReadLanded(key, data) =>
      if key in s.queries {
        LandWaits(s, key, data);
      }
    case Stop => StopWatches(s);
    case TakeStamp => SameWatch(s, Step(s, e));
    case _ => RestartWaits(s, Step(s, e).queries);
  }

  lemma SameWatch(s: State, t: State)
    requires WaitersAreWatched(s) && t.queries == s.queries && t.users == s.users && t.watching == s.watching
    ensures WaitersAreWatched(t)
  {
  }

  lemma StopWatches(s: State)
    ensures WaitersAreWatched(Step(s, Stop))
  {
  }

  /** Over every run, landings are listened for exactly while some member waits for one. */
  lemma {:induction false} EveryRunWatchesItsWaiters(events: seq<Event>)
    ensures WaitersAreWatched(Run(events))
  {
    hide Step;
    if events != [] {
      EveryRunWatchesItsWaiters(events[..|events| - 1]);
      StepWatches(Run(events[..|events| - 1]), events[|events| - 1]);
    }
  }

  // ------------------------------------------------------------ what a landed query shows

  /** The pages say of a member what was last heard: nothing when gone, the member itself when it is theirs to show. */
  ghost predicate PagesSay(pages: Pages, id: string, newest: Option<User>) {
    && (forall u :: u in Flatten(pages) && u.id == id ==> newest == Some(u))
    && (newest.Some? && pages != [] ==>
          newest.value in Flatten(pages) || (HasMore(pages) && !SomeAfter(Flatten(pages), id)))
  }

  ghost predicate Says(data: Data, id: string, newest: Option<User>) {
    match data
    case MeData(user, org) => newest.Some? && user.id == id ==> user == newest.value
    case PagesData(pages) => PagesSay(pages, id, newest)
    case OtherData => false
  }

  /** Either the query is read again, or it says what was last heard of the member. */
  ghost predicate Settled(query: Query, id: string, newest: Option<User>) {
    query.fetching || (query.data.Some? && Says(query.data.value, id, newest))
  }

  /** No two pages hold the member, as pages read one after the other never do. */
  ghost predicate HeldOnce(data: Data, id: string) {
    data.PagesData? ==> HeldInOnePage(data.pages, id)
  }

  /** The caller's own query holds their record, and no other does. */
  ghost predicate FitsKey(key: Key, data: Data) {
    key.MeKey? <==> data.MeData?
  }

  lemma PlacedPagesSay(pages: Pages, user: User)
    requires HeldInOnePage(pages, user.id)
    ensures PagesSay(PlaceInPages(pages, user), user.id, Some(user))
  {
    hide IdLess, PlaceInPages, Flatten, HeldInOnePage, SomeAfter, HasMore;
    PlacingSaysOne(pages, user);
    PlacingTouchesOne(pages, user);
  }

  lemma RemovedPagesSay(pages: Pages, id: string)
    ensures PagesSay(RemoveFromPages(pages, id), id, None)
  {
    hide Flatten, RemoveFromPages, HasMore, SomeAfter;
    FlattenOfRemove(pages, id);
    WithoutHolds(Flatten(pages), id);
  }

  /** Writing one member leaves what the pages say of another. */
  lemma PlacingKeepsSaying(pages: Pages, user: User, id: string, newest: Option<User>)
    requires PagesSay(pages, id, newest) && id != user.id && (newest.Some? ==> newest.value.id == id)
    ensures PagesSay(PlaceInPages(pages, user), id, newest)
  {
    hide IdLess, PlaceInPages, Flatten, HasMore;
    PlacingTouchesOne(pages, user);
    IdOrder();
    var rows := Flatten(PlaceInPages(pages, user));
    if HasMore(pages) && !SomeAfter(Flatten(pages), id) {
      forall u | u in rows
        ensures !IdLess(id, u.id)
      {
        if u.id == user.id {
          HeldForAReason(pages, user, u);
        }
      }
    }
  }

  lemma RemovingKeepsSaying(pages: Pages, other: string, id: string, newest: Option<User>)
    requires PagesSay(pages, id, newest) && id != other && (newest.Some? ==> newest.value.id == id)
    ensures PagesSay(RemoveFromPages(pages, other), id, newest)
  {
    hide Flatten;
    FlattenOfRemove(pages, other);
    WithoutHolds(Flatten(pages), other);
  }

  /** Writing a member keeps every member in one page at most. */
  lemma PlacingKeepsHeldOnce(pages: Pages, user: User, id: string)
    requires HeldInOnePage(pages, id)
    ensures HeldInOnePage(PlaceInPages(pages, user), id)
  {
    hide PlaceInPages;
    PlacePageByPage(pages, user);
    var r := PlaceInPages(pages, user);
    if id != user.id {
      forall i | 0 <= i < |pages|
        ensures HoldsUser(r[i].items, id) <==> HoldsUser(pages[i].items, id)
      {
        assert SameButOne(r[i].items, pages[i].items, user.id);
      }
    }
  }

  lemma RemovingKeepsHeldOnce(pages: Pages, other: string, id: string)
    requires HeldInOnePage(pages, id)
    ensures HeldInOnePage(RemoveFromPages(pages, other), id)
  {
    var r := RemoveFromPages(pages, other);
    forall i | 0 <= i < |pages|
      ensures HoldsUser(r[i].items, id) ==> HoldsUser(pages[i].items, id)
    {
      WithoutHolds(pages[i].items, other);
    }
  }

  lemma RewriteKeepsHeldOnce(key: Key, data: Data, other: string, user: Option<User>, id: string)
    requires HeldOnce(data, id)
    ensures Rewrite(key, data, other, user).Some? ==> HeldOnce(Rewrite(key, data, other, user).value, id)
  {
    hide PlaceInPages, RemoveFromPages, HeldInOnePage;
    if data.PagesData? {
      if user.Some? {
        PlacingKeepsHeldOnce(data.pages, user.value, id);
      } else {
        RemovingKeepsHeldOnce(data.pages, other, id);
      }
    }
  }

  lemma RewriteSays(key: Key, data: Data, id: string, user: Option<User>)
    requires FitsKey(key, data) && HeldOnce(data, id) && (user.Some? ==> user.value.id == id)
    ensures Rewrite(key, data, id, user).None? <==> data.OtherData?
    ensures Rewrite(key, data, id, user).Some? ==>
              var after := Rewrite(key, data, id, user).value;
              FitsKey(key, after) && Says(after, id, user)
  {
    hide PlaceInPages, RemoveFromPages, Flatten, PagesSay, HeldInOnePage;
    if data.PagesData? {
      if user.Some? {
        PlacedPagesSay(data.pages, user.value);
      } else {
        RemovedPagesSay(data.pages, id);
      }
    }
  }

  lemma RewriteKeepsSaying(key: Key, data: Data, other: string, user: Option<User>, id: string, newest: Option<User>)
    requires FitsKey(key, data) && (user.Some? ==> user.value.id == other)
    requires id != other && (newest.Some? ==> newest.value.id == id) && Says(data, id, newest)
    ensures Rewrite(key, data, other, user).Some? ==> Says(Rewrite(key, data, other, user).value, id, newest)
  {
    hide PlaceInPages, RemoveFromPages, Flatten, PagesSay;
    if data.PagesData? {
      if user.Some? {
        PlacingKeepsSaying(data.pages, user.value, id, newest);
      } else {
        RemovingKeepsSaying(data.pages, other, id, newest);
      }
    }
  }

  /** The query holds what its key is for, and none of these members in two of its pages. */
  ghost predicate WellRead(key: Key, query: Query, ids: seq<string>) {
    && query.data.Some? && FitsKey(key, query.data.value)
    && forall id :: id in ids ==> HeldOnce(query.data.value, id)
  }

  lemma WriteIntoSettles(key: Key, query: Query, id: string, user: Option<User>, ids: seq<string>)
    requires WellRead(key, query, ids) && id in ids && (user.Some? ==> user.value.id == id)
    ensures WellRead(key, WriteInto(key, query, id, user), ids) && Settled(WriteInto(key, query, id, user), id, user)
  {
    hide Rewrite, Says, HeldOnce, FitsKey;
    RewriteSays(key, query.data.value, id, user);
    forall other | other in ids
      ensures HeldOnce(WriteInto(key, query, id, user).data.value, other)
    {
      RewriteKeepsHeldOnce(key, query.data.value, id, user, other);
    }
  }

  lemma WriteIntoKeepsSettled(
      key: Key, query: Query, other: string, user: Option<User>, id: string, newest: Option<User>)
    requires query.data.Some? && FitsKey(key, query.data.value) && (user.Some? ==> user.value.id == other)
    requires id != other && (newest.Some? ==> newest.value.id == id) && Settled(query, id, newest)
    ensures Settled(WriteInto(key, query, other, user), id, newest)
  {
    hide Rewrite, Says, FitsKey;
    ShapeDecides(key, query.data.value, other, user);
    if !query.fetching {
      RewriteKeepsSaying(key, query.data.value, other, user, id, newest);
    }
  }

  lemma ShapeDecides(key: Key, data: Data, id: string, user: Option<User>)
    requires FitsKey(key, data)
    ensures Rewrite(key, data, id, user).None? <==> data.OtherData?
  {
    hide PlaceInPages, RemoveFromPages;
  }

  ghost predicate UsersKeyed(users: map<string, Option<User>>) {
    forall id :: id in users && users[id].Some? ==> users[id].value.id == id
  }

  lemma {:induction false} WriteAgainSettles(
      key: Key, query: Query, users: map<string, Option<User>>, ids: seq<string>, all: seq<string>)
    requires WellRead(key, query, all) && UsersKeyed(users) && forall id :: id in ids ==> id in all
    ensures WellRead(key, WriteAgain(key, query, users, ids), all)
    ensures forall id :: id in ids && id in users ==> Settled(WriteAgain(key, query, users, ids), id, users[id])
  {
    hide WriteInto, WellRead, Settled;
    if ids != [] {
      var front, last := ids[..|ids| - 1], ids[|ids| - 1];
      WriteAgainSettles(key, query, users, front, all);
      var before := WriteAgain(key, query, users, front);
      if last in users {
        WriteIntoSettles(key, before, last, users[last], all);
        WellReadFits(key, before, all);
        forall id | id in front && id in users && id != last
          ensures Settled(WriteInto(key, before, last, users[last]), id, users[id])
        {
          WriteIntoKeepsSettled(key, before, last, users[last], id, users[id]);
        }
      }
    }
  }

  lemma WellReadFits(key: Key, query: Query, ids: seq<string>)
    requires WellRead(key, query, ids)
    ensures query.data.Some? && FitsKey(key, query.data.value)
  {
  }

  lemma {:induction false} EveryRunIsKeyed(events: seq<Event>)
    ensures UsersKeyed(Run(events).users)
  {
    hide WriteInto, Land, Ledger.IsOlder, Ledger.Noted, SomeWaits;
    if events != [] {
      EveryRunIsKeyed(events[..|events| - 1]);
      LandKeepsUsers(Run(events[..|events| - 1]), events[|events| - 1]);
    }
  }

  lemma LandKeepsUsers(s: State, e: Event)
    ensures e.ReadLanded? ==> Step(s, e).users == s.users && Step(s, e).heard == s.heard
  {
    hide WriteAgain;
  }

  /** The member cannot be written into what the query holds: its shape is none that is known. */
  predicate IsUndecided(key: Key, query: Query) {
    query.data.Some? && key.UsersKey? && !query.data.value.PagesData?
  }

  /**
   A write has a query read again exactly when its shape is not known; otherwise the member
   comes to wait exactly when the query is being read, and no other member's wait changes.
   */
  lemma AWriteHasItReadAgainExactlyWhen(key: Key, query: Query, id: string, user: Option<User>)
    ensures var after := WriteInto(key, query, id, user);
            && (after.fetching <==> query.fetching || IsUndecided(key, query))
            && (IsUndecided(key, query) ==> after.data == query.data && after.waiting == query.waiting)
            && (!IsUndecided(key, query) ==>
                  forall other :: other in after.waiting <==>
                    other in query.waiting || (other == id && query.fetching))
            && (after.data.Some? <==> query.data.Some?) && IsUndecided(key, after) == IsUndecided(key, query)
  {
    hide PlaceInPages, RemoveFromPages;
  }

  ghost predicate SomeHeard(ids: seq<string>, users: map<string, Option<User>>) {
    exists id :: id in ids && id in users
  }

  lemma {:induction false} WriteAgainReads(key: Key, query: Query, users: map<string, Option<User>>, ids: seq<string>)
    ensures var after := WriteAgain(key, query, users, ids);
            && (after.fetching <==> query.fetching || (IsUndecided(key, query) && SomeHeard(ids, users)))
            && IsUndecided(key, after) == IsUndecided(key, query)
  {
    hide WriteInto, IsUndecided;
    if ids != [] {
      var front, last := ids[..|ids| - 1], ids[|ids| - 1];
      WriteAgainReads(key, query, users, front);
      assert ids == front + [last];
      if last in users {
        AWriteHasItReadAgainExactlyWhen(key, WriteAgain(key, query, users, front), last, users[last]);
      }
    }
  }

  ghost predicate AllSettled(query: Query, placed: set<string>, users: map<string, Option<User>>) {
    forall id :: id in placed ==> id in users && Settled(query, id, users[id])
  }

  lemma ReceivedIsWellRead(key: Key, data: Data, ids: seq<string>)
    requires FitsKey(key, data) && forall id :: id in ids ==> HeldOnce(data, id)
    ensures WellRead(key, Received(data), ids)
  {
  }

  /**
   Over every run, once a read lands with no waiting member in two of its pages, the query
   says of every member written while it was in flight what was last heard of them; only a
   query whose shape is not known is read again instead.
   */
  lemma {:induction false} LandingShowsTheNewest(events: seq<Event>, key: Key, data: Data)
    requires key in Run(events).queries && Run(events).queries[key].fetching && FitsKey(key, data)
    requires forall id :: id in Run(events).queries[key].waiting ==> HeldOnce(data, id)
    ensures var s := Run(events);
            AllSettled(Step(s, ReadLanded(key, data)).queries[key], s.queries[key].placed, s.users)
    ensures Step(Run(events), ReadLanded(key, data)).queries[key].fetching ==> data.OtherData?
  {
    hide Run, WriteAgain, Settled, HeldOnce;
    var s := Run(events);
    EveryRunWatchesItsWaiters(events);
    EveryRunIsKeyed(events);
    var query := s.queries[key];
    assert QueryWaits(query, s.users);
    if !s.watching {
      assert query.waiting == [];
    }
    ReceivedIsWellRead(key, data, query.waiting);
    WriteAgainSettles(key, Received(data), s.users, query.waiting, query.waiting);
    WriteAgainReads(key, Received(data), s.users, query.waiting);
  }

  /**
   An answer the ledger admits is in every query at once, also while the query is read;
   only a query whose shape does not say where the member goes is read again instead.
   */
  lemma AnAnswerIsShownAtOnce(s: State, key: Key, id: string, user: Option<User>, answer: Ledger.Answer)
    requires key in s.queries && WellRead(key, s.queries[key], [id]) && (user.Some? ==> user.value.id == id)
    requires !Ledger.IsOlder(Ledger.LastOf(s.heard, id), answer)
    ensures key in Admit(s, id, user, answer).queries
    ensures var before, after := s.queries[key], Admit(s, id, user, answer).queries[key];
            if before.data.value.OtherData? then after.fetching && after.data == before.data
            else after.fetching == before.fetching && after.data.Some? && Says(after.data.value, id, user)
  {
    hide Rewrite, Says, WellRead, HeldOnce, FitsKey, Ledger.IsOlder, Ledger.Noted, SomeWaits;
    WellReadHolds(key, s.queries[key], id);
    RewriteSays(key, s.queries[key].data.value, id, user);
  }

  lemma WellReadHolds(key: Key, query: Query, id: string)
    requires WellRead(key, query, [id])
    ensures query.data.Some? && FitsKey(key, query.data.value) && HeldOnce(query.data.value, id)
  {
    assert id in [id];
  }

  /** A member written into a query while it is read waits for the read, unless the write has it read again. */
  lemma WrittenDuringAReadWaits(key: Key, query: Query, id: string, user: Option<User>)
    requires query.fetching && (query.data.Some? ==> Rewrite(key, query.data.value, id, user).Some?)
    ensures var after := WriteInto(key, query, id, user);
            after.fetching && id in after.placed && id in after.waiting && query.placed <= after.placed
  {
    hide Rewrite;
  }

  /** Writing one member leaves everything else the query holds: the other members, and the caller's org. */
  lemma AWriteTouchesOne(key: Key, data: Data, id: string, user: Option<User>)
    requires FitsKey(key, data) && !data.OtherData? && (user.Some? ==> user.value.id == id)
    ensures var after := Rewrite(key, data, id, user);
            match data
            case MeData(me, org) =>
              after == Some(MeData(if me.id == id && user.Some? then user.value else me, org))
            case PagesData(pages) =>
              after.Some? && after.value.PagesData? && SameButOne(Flatten(after.value.pages), Flatten(pages), id)
  {
    hide PlaceInPages, RemoveFromPages, Flatten;
    if data.PagesData? {
      if user.Some? {
        PlacingTouchesOne(data.pages, user.value);
      } else {
        FlattenOfRemove(data.pages, id);
        WithoutHolds(Flatten(data.pages), id);
      }
    }
  }

  /** When a query's read lands it is read again exactly when its shape is not known and some member heard of waited. */
  lemma {:induction false} ALandedQueryIsReadAgainExactlyWhen(events: seq<Event>, key: Key, data: Data)
    requires key in Run(events).queries && Run(events).queries[key].fetching
    ensures var s := Run(events);
            Step(s, ReadLanded(key, data)).queries[key].fetching <==>
              key.UsersKey? && !data.PagesData? && SomeHeard(s.queries[key].waiting, s.users)
  {
    hide Run, WriteAgain;
    var s := Run(events);
    EveryRunWatchesItsWaiters(events);
    WriteAgainReads(key, Received(data), s.users, s.queries[key].waiting);
    if !s.watching {
      assert s.queries[key].waiting == [];
    }
  }

  // ------------------------------------------------------------ what was heard, and what is read

  /** The event is an answer about this member that the ledger admits. */
  predicate Hears(s: State, e: Event, id: string) {
    match e
    case PlaceAnswer(user, since) =>
      user.id == id && !Ledger.IsOlder(Ledger.LastOf(s.heard, id), Ledger.Found(None, since))
    case RemoveAnswer(gone, since) => gone == id && !Ledger.IsOlder(Ledger.LastOf(s.heard, id), Ledger.Gone(since))
    case _ => false
  }

  /** The answer about a member heard last, since the session ended last: the member, or nothing of them. */
  function NewestHeard(events: seq<Event>, id: string): Option<Option<User>> {
    if events == [] then None
    else
      var front, e := events[..|events| - 1], events[|events| - 1];
      if e.Stop? then None
      else if Hears(Run(front), e, id) then Some(if e.PlaceAnswer? then Some(e.user) else None)
      else NewestHeard(front, id)
  }

  lemma StepHears(s: State, e: Event, id: string)
    ensures var t := Step(s, e);
            if e.Stop? then id !in t.users
            else if Hears(s, e, id) then id in t.users && t.users[id] == (if e.PlaceAnswer? then Some(e.user) else None)
            else (id in t.users <==> id in s.users) && (id in t.users ==> t.users[id] == s.users[id])
  {
    hide WriteInto, Land, SomeWaits, Ledger.IsOlder, Ledger.Noted;
    LandKeepsUsers(s, e);
  }

  /** Over every run what is kept of a member, and written into every query, is the newest answer heard. */
  lemma {:induction false} KeptIsTheNewestHeard(events: seq<Event>, id: string)
    ensures var s := Run(events);
            NewestHeard(events, id) == if id in s.users then Some(s.users[id]) else None
  {
    hide Step, Hears;
    if events != [] {
      var front, e := events[..|events| - 1], events[|events| - 1];
      KeptIsTheNewestHeard(front, id);
      StepHears(Run(front), e, id);
    }
  }

  /** The write of an admitted answer has the query read again. */
  predicate HasItRead(s: State, e: Event, key: Key)
    requires key in s.queries
  {
    && IsUndecided(key, s.queries[key])
    && ((e.PlaceAnswer? && Hears(s, e, e.user.id)) || (e.RemoveAnswer? && Hears(s, e, e.id)))
  }

  /** A read of the query was issued and neither landed nor failed since; a query once read stays cached. */
  ghost predicate ReadIsOut(events: seq<Event>, key: Key) {
    events != [] &&
    var front, e := events[..|events| - 1], events[|events| - 1];
    var s := Run(front);
    || e == ReadStarted(key)
    || (key in s.queries &&
        if e.ReadLanded? && e.key == key && s.queries[key].fetching
        then key.UsersKey? && !e.data.PagesData? && SomeHeard(s.queries[key].waiting, s.users)
        else e.ReadCollections? || HasItRead(s, e, key) || (ReadIsOut(front, key) && e != ReadFailed(key)))
  }

  lemma WriteReads(s: State, id: string, user: Option<User>, key: Key)
    ensures (key in Write(s, id, user).queries <==> key in s.queries)
    ensures key in s.queries ==>
              (Write(s, id, user).queries[key].fetching <==>
                 s.queries[key].fetching || IsUndecided(key, s.queries[key]))
  {
    hide WriteInto, SomeWaits;
    if key in s.queries {
      AWriteHasItReadAgainExactlyWhen(key, s.queries[key], id, user);
    }
  }

  predicate IsRead(s: State, key: Key) {
    key in s.queries && s.queries[key].fetching
  }

  lemma StepReads(s: State, e: Event, key: Key)
    requires !(e.ReadLanded? && e.key == key && IsRead(s, key))
    ensures IsRead(Step(s, e), key) <==>
              || e == ReadStarted(key)
              || (&& key in s.queries
                  && (e.ReadCollections? || HasItRead(s, e, key) || (IsRead(s, key) && e != ReadFailed(key))))
    ensures key in s.queries ==> key in Step(s, e).queries
  {
    hide Write, WriteAgain, Ledger.IsOlder, Ledger.Noted, SomeWaits;
    match e
    case PlaceAnswer(user, since) =>
      WriteReads(s.(heard := Ledger.Noted(s.heard, user.id, Ledger.Found(None, since))), user.id, Some(user), key);
    case RemoveAnswer(id, since) =>
      WriteReads(s.(heard := Ledger.Noted(s.heard, id, Ledger.Gone(since))), id, None, key);
    case _ =>
  }

  /**
   Over every run a query is being read exactly while a read of it is out: one that was issued,
   by itself, with the collections, or for a shape that is not known, and did not end since.
   */
  lemma {:induction false} AQueryIsReadExactlyWhen(events: seq<Event>, key: Key)
    ensures IsRead(Run(events), key) <==> ReadIsOut(events, key)
  {
    hide Step, HasItRead, SomeHeard;
    if events != [] {
      var front, e := events[..|events| - 1], events[|events| - 1];
      AQueryIsReadExactlyWhen(front, key);
      if e.ReadLanded? && e.key == key && IsRead(Run(front), key) {
        ALandedQueryIsReadAgainExactlyWhen(front, key, e.data);
        LandingKeepsTheQuery(Run(front), key, e.data);
      } else {
        StepReads(Run(front), e, key);
      }
    }
  }

  lemma LandingKeepsTheQuery(s: State, key: Key, data: Data)
    requires key in s.queries
    ensures key in Step(s, ReadLanded(key, data)).queries
  {
    hide WriteAgain;
  }

  /** Reading the collections leaves what every query holds and who waits, and has each of them read. */
  lemma ReadingTheCollectionsReadsThemAll(s: State, key: Key)
    requires key in s.queries
    ensures var t := Step(s, ReadCollections);
            && key in t.queries && t.queries[key].fetching
            && t.queries[key].data == s.queries[key].data && t.queries[key].waiting == s.queries[key].waiting
  {
  }

  /** Once the session ends nothing is kept of any member, none waits and no landing is listened for. */
  lemma StoppingLetsGo(s: State, key: Key)
    ensures var t := Step(s, Stop);
            t.users == map[] && !t.watching && (key in t.queries ==> t.queries[key].waiting == [])
  {
  }

  // ------------------------------------------------------------ the ledger of members

  ghost predicate NoVersions(heard: map<string, Ledger.Heard>) {
    forall id :: id in heard ==> heard[id].version.None?
  }

  lemma NotedHasNoVersion(heard: map<string, Ledger.Heard>, id: string, answer: Ledger.Answer)
    requires NoVersions(heard) && (answer.Found? ==> answer.version.None?)
    ensures NoVersions(Ledger.Noted(heard, id, answer))
  {
  }

  lemma StepHasNoVersion(s: State, e: Event)
    requires NoVersions(s.heard)
    ensures NoVersions(Step(s, e).heard)
  {
    hide WriteInto, Land, SomeWaits, Ledger.Noted, Ledger.IsOlder, NoVersions;
    match e
    case PlaceAnswer(user, since) => NotedHasNoVersion(s.heard, user.id, Ledger.Found(None, since));
    case RemoveAnswer(id, since) => NotedHasNoVersion(s.heard, id, Ledger.Gone(since));
    case ReadLanded(key, data) => LandKeepsUsers(s, e);
    case _ =>
  }

  lemma {:induction false} EveryRunHasNoVersion(events: seq<Event>)
    ensures NoVersions(Run(events).heard)
  {
    hide Step;
    if events != [] {
      EveryRunHasNoVersion(events[..|events| - 1]);
      StepHasNoVersion(Run(events[..|events| - 1]), events[|events| - 1]);
    }
  }

  /** Members are heard of without a version, so none is ever held and every push about one is read. */
  lemma {:induction false} NoMemberIsEverHeld(events: seq<Event>, id: string, version: nat)
    ensures !Ledger.HoldsAt(Ledger.LastOf(Run(events).heard, id), version)
  {
    hide Run;
    EveryRunHasNoVersion(events);
  }

  // ------------------------------------------------------------ the effects themselves

  /** What the hint reader reaches for to place and remove members, over a ledger of its own. */
  class Members {
    const ledger: Ledger.Ledger
    var users: map<string, Option<User>>
    var queries: map<Key, Query>
    var watching: bool

    constructor ()
      ensures View() == EMPTY && fresh(ledger)
    {
      ledger := new Ledger.Ledger();
      users, queries, watching := map[], map[], false;
    }

    ghost function View(): State
      reads this, ledger
    {
      State(ledger.heard, ledger.clock, users, queries, watching)
    }

    method WriteIntoQuery(key: Key, id: string)
      requires key in queries && id in users
      modifies this`queries, this`watching
      ensures queries == old(queries)[key := WriteInto(key, old(queries)[key], id, users[id])]
      ensures old(watching) || queries[key].waiting != old(queries)[key].waiting ==> watching
      ensures watching ==> old(watching) || queries[key].waiting != []
    {
      hide Rewrite;
      var query := queries[key];
      if query.data.Some? {
        var changed := Rewrite(key, query.data.value, id, users[id]);
        if changed.None? {
          queries := queries[key := Restarted(query)];
          return;
        }
        query := query.(data := changed);
      }
      if query.fetching {
        query := Held(query, id);
        watching := true;
      }
      queries := queries[key := query];
    }

    method WriteEverywhere(id: string, user: Option<User>)
      requires watching <==> SomeWaits(queries)
      modifies this`users, this`queries, this`watching
      ensures View() == Write(old(View()), id, user)
    {
      hide WriteInto, SomeWaits, Rewrite, Restarted, Held;
      ghost var before := queries;
      users := users[id := user];
      var todo := queries.Keys;
      while todo != {}
        invariant users == old(users)[id := user]
        invariant todo <= before.Keys && queries.Keys == before.Keys
        invariant forall key :: key in todo ==> queries[key] == before[key]
        invariant forall key :: key in before && key !in todo ==> queries[key] == WriteInto(key, before[key], id, user)
        invariant old(watching) ==> watching
        invariant forall key :: key in before && key !in todo ==>
                    queries[key].waiting != before[key].waiting ==> watching
        invariant watching && !old(watching) ==>
                    exists key :: key in queries && key !in todo && queries[key].waiting != []
        decreases |todo|
      {
        var key :| key in todo;
        WriteIntoQuery(key, id);
        todo := todo - {key};
      }
      assert queries == map key | key in before :: WriteInto(key, before[key], id, user);
      WatchesWhileSomeWait(before, queries, old(watching), watching);
    }

    method Place(user: User, since: nat)
      requires watching <==> SomeWaits(queries)
      modifies this, ledger
      ensures View() == Step(old(View()), PlaceAnswer(user, since))
    {
      hide Write, Ledger.Noted, Ledger.IsOlder, SomeWaits;
      var admitted := ledger.Admit(user.id, None, since);
      if admitted {
        WriteEverywhere(user.id, Some(user));
      } else {
        Ledger.RefusedIsNotNoted(old(ledger.heard), user.id, Ledger.Found(None, since));
      }
    }

    method Remove(id: string, since: nat)
      requires watching <==> SomeWaits(queries)
      modifies this, ledger
      ensures View() == Step(old(View()), RemoveAnswer(id, since))
    {
      hide Write, Ledger.Noted, Ledger.IsOlder, SomeWaits;
      var admitted := ledger.AdmitGone(id, since);
      if admitted {
        WriteEverywhere(id, None);
      } else {
        Ledger.RefusedIsNotNoted(old(ledger.heard), id, Ledger.Gone(since));
      }
    }

    method OnReadLanded(key: Key, data: Data)
      modifies this`queries, this`watching
      ensures View() == Step(old(View()), ReadLanded(key, data))
    {
      hide WriteInto, Rewrite;
      if key !in queries || !queries[key].fetching {
        return;
      }
      var landed := queries[key].waiting;
      if !watching {
        queries := queries[key := Received(data).(waiting := landed)];
        return;
      }
      queries := queries[key := Received(data)];
      for i := 0 to |landed|
        invariant key in queries && queries == old(queries)[key := WriteAgain(key, Received(data), users, landed[..i])]
      {
        assert landed[..i + 1][..|landed[..i + 1]| - 1] == landed[..i];
        if landed[i] in users {
          WriteIntoQuery(key, landed[i]);
        }
      }
      assert landed[..|landed|] == landed;
      watching := exists other :: other in queries && queries[other].waiting != [];
    }

    method StopHearing()
      modifies this`users, this`queries, this`watching
      ensures View() == Step(old(View()), Stop)
    {
      watching := false;
      queries := map key | key in queries :: queries[key].(waiting := [], placed := {});
      users := map[];
    }
  }

  lemma WatchesWhileSomeWait(before: map<Key, Query>, after: map<Key, Query>, was: bool, watching: bool)
    requires after.Keys == before.Keys && (was <==> SomeWaits(before))
    requires was ==> watching
    requires forall key :: key in before && after[key].waiting != before[key].waiting ==> watching
    requires watching && !was ==> exists key :: key in after && after[key].waiting != []
    ensures watching == (was || SomeWaits(after))
  {
    if SomeWaits(after) && !was {
      var key :| key in after && after[key].waiting != [];
      assert before[key].waiting == [];
    }
  }
}
