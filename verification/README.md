# Verification of the realtime and cache layer

A browser tab of the portal keeps a partial copy of what the server would show it, while
pushes arrive out of order, the stream has gaps and is trimmed, sockets drop, reads land
late and people sign in and out. This project models the state machines that keep that
copy right, and proves what they promise over every run. It also models the bounded-cost
machines next to them: the breaker, the resumable upload, the retry loop and the handover
of a session.

Each imperative part is modelled twice. A class has the source's fields and handlers, and
each method states its whole new state as a function of the old one. That function is the
step of a machine over values, and the theorems are about the machine's runs: a run is any
sequence of events, in any order, with any data. Where the code awaits, a step ends, so
every interleaving at an await is a run.

| file | what it models |
|---|---|
| `Options.dfy`, `Strings.dfy`, `Envelopes.dfy`, `Router.dfy`, `Stream.dfy` | envelopes and notices; what a change touches and the replay key; cursor arithmetic and the first catch-up's tail |
| `Delivery.dfy`, `DeliveryInvariant.dfy`, `DeliveryTheorems.dfy`, `DeliveryAnswers.dfy` | the channel's serialised inbox as a machine, what every step keeps, and what becomes of everything that reaches it |
| `Channel.dfy` | the channel's handlers as a class, and a replay run to its end |
| `Connection.dfy` | ticket, socket, backoff, polling and pause, and the status store |
| `Ranks.dfy`, `TaskOrder.dfy` | decimal ranks compared exactly; the two list orders, and sorting by them |
| `TaskPlacement.dfy`, `PlacementTheorems.dfy`, `WindowRuns.dfy` | where a change goes in a cached window; agreement with the server, for one change and over runs |
| `Ledger.dfy` | which of several late answers wins |
| `TaskCache.dfy`, `TaskLanding.dfy`, `SnapshotReads.dfy` | the task lists written from answers; what a landing read leaves, row by row and as a whole list |
| `UserPages.dfy`, `MemberCache.dfy` | members in their pages, and the queries about members |
| `Hints.dfy` | pushes gathered into windows and answered by reads |
| `Breaker.dfy`, `Upload.dfy`, `Session.dfy`, `Retry.dfy` | the breaker, the upload, the session handover, waits and attempts |

What the proofs take from the server: it says hello before anything else on a socket; every
event above the floor up to the head is stored, a seq names one record, pages are in stream order, and a page from
below the floor is refused (`om/src/tadas/om/change_events/storage/tables/change_event_cursors.py:17-19`,
`om/src/tadas/om/change_events/impl/manager.py:48-58`); `produced_at` goes back along the
stream by no more than the first catch-up's margin (first catch-up only); a list is ordered
by rank or instant and then id, its cursor names the position of the row a page ended on,
and a newer task has a greater version; an upload's plan partitions the file and the store
takes a part only at its length.

Some claims the code's comments or a first reading suggest do not hold, and are stated as
they are: notices can come out of stream order (`WhenNoticesComeInStreamOrder`), a push can be
dropped when a refresh fails (`EveryFrameIsAnswered`, `AFailedRefreshDropsThePush`), the ledger
does not always end at the latest answer (`ConvergesToTheLatestExactlyWhen`), a stale row
can stay in a list that landed (`AStaleRowStaysExactlyWhen`, `AStaleRowCanStay`), a member placed again behind
the last one held is not shown (`PlacingFollowsTheRosterExactlyWhen`), waits stop growing at
the cap (`WaitsGrowExactlyUnderTheCap`), an upload gone on with another file of the same
size is confirmed (`GoOnWithAnotherFile`), a failed switch forgets a session taken up
meanwhile (`AFailedSwitchForgetsANewerSession`), a write's answer can be cached under the
next session (`AnswersOfAnotherSessionAreCachedExactlyWhen`, `AWriteCanLandInTheNextSession`),
and two probes can come closer than a cool-down (`ProbesComeCloserExactlyWhen`,
`ProbesCanComeCloser`).

## Model

| member | source | states |
|---|---|---|
| Router.RouteChange | apps/portal/src/realtime/router.ts:76-92 | Routing one change touches exactly its targets: a hint about the one record where a reader reads it, one invalidation per query key otherwise. |
| Router.APushReachesWhatCarriesIt | apps/portal/src/realtime/router.ts:34-44 | A push of an entity with a reader is one hint about its record and reads no query again; any other push has a cached query read again if and only if that query carries its entity: `me` a membership or a user, the list of places and the member roles a membership, the billing query an account, and the rest what their key names (`apps/portal/src/queries/keys.ts:7-64`). |
| Router.KeyDecidesTouches | apps/portal/src/realtime/router.ts:97-100 | Two changes under one replay key touch the same, when no entity name holds a slash. |
| Router.UnderOneKeyTouchesAgreeExactlyWhen | apps/portal/src/realtime/router.ts:97-100 | Whatever the names, two changes under one replay key touch the same if and only if they are of one entity. |
| Router.SlashCollides | apps/portal/src/realtime/router.ts:97-100 | With a slash in an entity's name two changes of different entities share a key. |
| Router.LastPerKeyCovers | apps/portal/src/realtime/channel.ts:185-201 | The change a page routes for a key stands at or after every change of that key in the page. |
| Router.OneRoutePerKey | apps/portal/src/realtime/channel.ts:185-201 | A page routes one change of each key, and only changes of the page. |
| Router.LastPerKeyTouchesTheSame | apps/portal/src/realtime/channel.ts:185-201 | Routing only the last change of each key of a page touches exactly what routing every change would. |
| Router.PushedPagesTouchTheSame | apps/portal/src/realtime/router.ts:48-60 | So it does for every page of the entities the server pushes. |
| Stream.FirstTailHoldsTheTail | om/src/tadas/om/change_events/storage/tables/change_event_cursors.py:17-19 | Every record above the floor being stored, one page read after max(0, head - page size), when it is not refused as trimmed, holds exactly the records from there to the head. |
| Stream.TheTailTellsExactlyWhen | apps/portal/src/realtime/stream.ts:63-79 | `tailSince` is null if and only if the tail is cut off, not empty and recent throughout; otherwise it holds exactly the recent records. |
| Stream.FirstCatchUpIsComplete | apps/portal/src/realtime/stream.ts:57-79 | While production times go back along the stream by no more than the margin, an answer of `tailSince` that is not null holds every record up to the head produced since the page began reading. |
| Stream.MoreDisorderMissesARecord | apps/portal/src/realtime/stream.ts:57-61 | With production times that go back by more than the margin, some stored stream has such a record left out. |
| Stream.TheMarginIsExact | apps/portal/src/realtime/stream.ts:57-79 | Past the first page, over all streams and all moments of the server, nothing is left out if and only if production times go back by no more than the margin. |
| DeliveryInvariant.StepKeeps | apps/portal/src/realtime/channel.ts:119-307 | Every step of the inbox (frame, open, poll, page, failed fetch, truncation, refresh, stop) keeps the invariant the claims below rest on. |
| DeliveryTheorems.NoticesAreToldOnce | apps/portal/src/realtime/channel.ts:119-147 | Over every run of hellos, pushes, pongs, polls, pages, failures, resyncs and stops no notice seq is announced twice. |
| DeliveryTheorems.NoticesAreAllTold | apps/portal/src/realtime/channel.ts:171-227 | Between two jobs of a live channel what was announced is exactly the notices the cursor passed and those of the first catch-up, no more and no fewer. |
| DeliveryTheorems.WhenNoticesComeInStreamOrder | apps/portal/src/realtime/channel.ts:251-280 | Announcements come in stream order if and only if nothing was announced before the first catch-up's own notices, or it had none. |
| DeliveryTheorems.NoticesComeInOrderUnlessACatchUpWaits | apps/portal/src/realtime/channel.ts:360-367 | Over every run of a server that says hello first, announcements come in stream order if no catch-up waits in the inbox when the first hello comes. |
| DeliveryTheorems.NoticesCanComeOutOfOrder | apps/portal/src/realtime/channel.ts:251-280 | A run a server can give rise to, hello first, in which a polled replay announces a notice past the head before the first catch-up announces an older one. |
| DeliveryTheorems.CursorNeverGoesBack | apps/portal/src/realtime/channel.ts:131-157 | Over any stretch of any run the cursor never decreases. |
| DeliveryTheorems.JumpsFollowARefresh | apps/portal/src/realtime/channel.ts:153-157 | Over every run the cursor jumps only at the successful end of a refresh that a resync to that head began, and only on a live channel. |
| DeliveryTheorems.NothingIsSkipped | apps/portal/src/realtime/channel.ts:153-227 | Every seq the cursor passed after the hello was passed by a change that a routed envelope of its replay key with a seq at least as large covers, or lies in a stretch jumped over at the successful end of such a refresh. |
| DeliveryTheorems.TailPageReachesAll | apps/portal/src/realtime/channel.ts:251-280 | Whatever else waits in the inbox, the page a first catch-up reads has every record up to the head produced since the page began reading covered by a routed envelope, or everything is read afresh. |
| DeliveryTheorems.TheFirstHelloIsCaughtUp | apps/portal/src/realtime/channel.ts:356-371 | Over every run, from the first hello on and whatever comes meanwhile: once the inbox is done every record up to its head produced since the page began reading is covered by a routed envelope, or a read of everything was begun after the hello. |
| DeliveryTheorems.NothingAfterStop | apps/portal/src/realtime/channel.ts:423-430 | After a stop nothing is routed or announced and the cursor stays, whatever still arrives. |
| DeliveryAnswers.EveryFrameIsAnswered | apps/portal/src/realtime/channel.ts:210-231 | Over every run, whatever comes meanwhile: once the inbox of a live channel is done each push it received is covered by a routed push of its key or at or before the cursor, and each other frame but a pong was routed. Only a push whose replay came to a refresh that failed is excepted. |
| DeliveryAnswers.EveryPushIsAnsweredFor | apps/portal/src/realtime/channel.ts:210-227 | So, a seq naming one record, each push received is covered by a routed push of its key, or was at or before the position the cursor started from, or lies in a stretch jumped over once everything had been read afresh. |
| DeliveryAnswers.AFailedRefreshDropsThePush | apps/portal/src/realtime/channel.ts:153-157 | The run that fails: a push ahead of the cursor whose replay is refused as trimmed and whose refresh then fails is neither routed nor passed once the inbox is done. |
| DeliveryAnswers.NothingIsMadeUp | apps/portal/src/realtime/channel.ts:131-147 | Over every run nothing is routed, passed or waiting that did not come in, as a frame or as a record of a page. |
| DeliveryAnswers.NoMoreIsRoutedThanCame | apps/portal/src/realtime/channel.ts:185-227 | Over every run at most as much is routed as came in: each frame once and each record of a page once. |
| DeliveryAnswers.APushSeenBeforeDoesNothing | apps/portal/src/realtime/channel.ts:140-142 | A push at or before the cursor when its turn comes does nothing. |
| DeliveryAnswers.ACueWithNoPositionRefreshes | apps/portal/src/realtime/channel.ts:236-242 | A poll, or a socket open long enough with no hello, has everything read afresh on a live channel that learns of no position, whatever else comes. |
| DeliveryAnswers.AHelloWithNoTimeRefreshes | apps/portal/src/realtime/channel.ts:251-255 | Over every run a first hello that carries no time has everything read afresh. |
| DeliveryAnswers.ATrimmedReplayIsReadAfresh | apps/portal/src/realtime/channel.ts:153-183 | A replay refused as trimmed begins a read of everything, whatever comes meanwhile, and once that succeeded the cursor is at or past the head the refusal named. |
| DeliveryAnswers.ARefreshBeginsExactlyWhen | apps/portal/src/realtime/channel.ts:153-274 | Everything is read afresh if and only if a catch-up has no position, a first hello no time, a first catch-up's tail cannot tell or could not be read, or a replay is refused as trimmed. |
| DeliveryAnswers.APongAtTheCursorDoesNothing | apps/portal/src/realtime/channel.ts:212-216 | A pong whose head is not past the cursor does nothing. |
| Channel.Channel.OnMessage | apps/portal/src/realtime/channel.ts:356-371 | The handler's new state is the step of the inbox: a frame: the first hello sets the cursor and queues its catch-up, every frame is queued. |
| Channel.Channel.OnOpen | apps/portal/src/realtime/channel.ts:342-355 | The handler's new state is the step of the inbox: a socket that opens with a cursor queues a catch-up. |
| Channel.Channel.OnPoll | apps/portal/src/realtime/channel.ts:287-290 | The handler's new state is the step of the inbox: a degraded poll queues a catch-up. |
| Channel.Channel.OnStable | apps/portal/src/realtime/channel.ts:349-354 | The handler's new state is the step of the inbox: a socket open that long without a hello queues a catch-up. |
| Channel.Channel.RunNext | apps/portal/src/realtime/channel.ts:229-243 | The handler's new state is the step of the inbox: the next job of the inbox runs up to its first await. |
| Channel.Channel.ApplyLive | apps/portal/src/realtime/channel.ts:131-147 | The handler's new state is the step of the inbox: one push: dropped, applied and announced in its turn, or a gap to replay after. |
| Channel.Channel.OnReplayPage | apps/portal/src/realtime/channel.ts:184-203 | The handler's new state is the step of the inbox: a replay's page: every record in its turn, the last of each key routed, notices kept for the end. |
| Channel.Channel.OnTailPage | apps/portal/src/realtime/channel.ts:265-280 | The handler's new state is the step of the inbox: the first catch-up's page, in one of its three outcomes. |
| Channel.Channel.OnFetchFailed | apps/portal/src/realtime/channel.ts:178-183 | The handler's new state is the step of the inbox: a failed fetch ends a replay with its notices announced, or turns a first catch-up into a refresh. |
| Channel.Channel.OnTruncated | apps/portal/src/realtime/channel.ts:178-183 | The handler's new state is the step of the inbox: a truncated fetch starts a resync. |
| Channel.Channel.OnRefreshed | apps/portal/src/realtime/channel.ts:153-157 | The handler's new state is the step of the inbox: a refresh that ends: the cursor jumps forward only, and only when it was not stopped. |
| Channel.Channel.OnStop | apps/portal/src/realtime/channel.ts:423-430 | The handler's new state is the step of the inbox: the stop. |
| Channel.PageMoves | apps/portal/src/realtime/channel.ts:192-201 | A page moves the cursor over stored seqs only, by the prefix of the page before the first hole. |
| Channel.PageReaches | apps/portal/src/realtime/channel.ts:202-203 | When a page is the last, or moved the cursor nowhere, the next seq is not stored. |
| Channel.GaplessPage | apps/portal/src/realtime/stream.ts:53-55 | On a gapless stream every page but the last is full and moves the cursor by its length. |
| Channel.Channel.ReplayToTheEnd | apps/portal/src/realtime/channel.ts:171-208 | Against any fixed stored stream, holes included, a replay with no fetch error ends, with the cursor at the last seq before the first hole; on a gapless stream after exactly (head - after) / pageSize + 1 fetches. |
| Channel.Channel.CatchUpToTheEnd | apps/portal/src/realtime/channel.ts:210-243 | Whatever tells a live, idle channel to look (a reconnect, a poll, a pong past the cursor), it ends with the cursor at the last seq before the first hole. |
| Connection.EveryRunHasOneConnection | apps/portal/src/realtime/channel.ts:282-443 | In every reachable state that is not paused, stopped or closed by 4401 exactly one of a current ticket request, a socket and a pending reconnect exists. Otherwise there is no socket and no pending reconnect, and no current ticket request either unless the channel was stopped while one was out. Open implies a socket, failed cycles equal the retries, polling runs exactly while degraded. |
| Connection.StopIsFinal | apps/portal/src/realtime/channel.ts:397-430 | After a stop no timer, socket or reconnect exists again, whatever answer or event still comes. |
| Connection.AHiddenTabLetsGoAndReturns | apps/portal/src/realtime/channel.ts:397-441 | A tab hidden long enough, connected or not, keeps no socket, timer or attempt; shown again it asks for one fresh ticket, its one attempt. |
| Connection.TicketsFromBeforeAPauseDoNothing | apps/portal/src/realtime/channel.ts:327-341 | Over any later run, a ticket asked for before a pause opens no socket and counts as no failure when it is answered. |
| Connection.TicketsAfterAStopDoNothing | apps/portal/src/realtime/channel.ts:331-341 | Over any later run, a ticket answered after a stop opens no socket and counts as no failure. |
| Connection.EveryRunShowsItsLife | apps/portal/src/realtime/channel.ts:282-443 | Over every run the socket, every timer, the retry count and the status store are what the connection's life says: a ticket answered opens the socket, a drop waits for a reconnect, drops in a row are counted until a socket settles or the tab lets go, from the second on the status is degraded and the channel polls, the ping and stable timers run on an open socket, and the pause timer while the tab is hidden. |
| Connection.OpenExactlyWhenTheSocketSettled | apps/portal/src/realtime/channel.ts:297-307 | Over every run the status is open if and only if a hello came on the socket that is held, or it was found stable, since it was opened; then no failure and no failed cycle is counted and nothing polls. |
| Connection.Link.StartConnecting | apps/portal/src/realtime/channel.ts:327-341 | The method's new state is the step of the connection machine: the start of a connect. |
| Connection.Link.ScheduleAgain | apps/portal/src/realtime/channel.ts:313-324 | The method's new state is the step of the connection machine: a drop: retry counted, degraded and polling from the second on. |
| Connection.Link.SettleDown | apps/portal/src/realtime/channel.ts:301-307 | The method's new state is the step of the connection machine: a socket that counts as connected. |
| Connection.Link.OnTicket | apps/portal/src/realtime/channel.ts:331-341 | The method's new state is the step of the connection machine: a ticket answered or refused, under the generation it was asked in. |
| Connection.Link.OnOpen | apps/portal/src/realtime/channel.ts:342-355 | The method's new state is the step of the connection machine: a socket opened. |
| Connection.Link.OnHello | apps/portal/src/realtime/channel.ts:360-369 | The method's new state is the step of the connection machine: a hello settles the socket it came on. |
| Connection.Link.OnClose | apps/portal/src/realtime/channel.ts:372-385 | The method's new state is the step of the connection machine: a close, by 4401 or not. |
| Connection.Link.OnStable | apps/portal/src/realtime/channel.ts:349-354 | The method's new state is the step of the connection machine: a socket open long enough. |
| Connection.Link.OnReconnect | apps/portal/src/realtime/channel.ts:323-323 | The method's new state is the step of the connection machine: a reconnect due. |
| Connection.Link.OnPause | apps/portal/src/realtime/channel.ts:411-419 | The method's new state is the step of the connection machine: the pause of a hidden tab. |
| Connection.Link.OnHide | apps/portal/src/realtime/channel.ts:431-434 | The method's new state is the step of the connection machine: a tab hidden. |
| Connection.Link.OnShow | apps/portal/src/realtime/channel.ts:435-441 | The method's new state is the step of the connection machine: a tab shown again. |
| Connection.Link.OnStop | apps/portal/src/realtime/channel.ts:424-430 | The method's new state is the step of the connection machine: the stop. |
| Connection.StepKeeps | apps/portal/src/store/connection.ts:21-33 | Every step keeps one connection and a status store that says so. |
| Ranks.CompareRankIsExact | apps/portal/src/queries/taskPlacement.ts:76-93 | `compareRank` is the comparison of the numbers the two decimals write, whatever their scales, signs, trailing zeros or missing whole part. |
| TaskOrder.CompareIsLexicographic | apps/portal/src/queries/taskPlacement.ts:101-117 | The open order is by rank then id, the done order newest first then larger id; zero exactly for the same place and id. |
| TaskOrder.OrderIsTotal | apps/portal/src/queries/taskPlacement.ts:101-117 | Of two tasks with different ids exactly one comes before the other. |
| TaskOrder.BeforeIsTransitive | apps/portal/src/queries/taskPlacement.ts:101-117 | Neither order has cycles: not-after is transitive. |
| TaskOrder.SortOfSorted | apps/portal/src/queries/taskPlacement.ts:190-190 | Sorting a sorted window changes nothing, so sorting it with one more task inserts that task. |
| PlacementTheorems.ServerListChanges | apps/portal/src/queries/taskPlacement.ts:59-70 | The server's list after a change is the list before with the task taken out and, where it is shown, put in its place. |
| PlacementTheorems.PlaceInRefines | apps/portal/src/queries/taskPlacement.ts:148-194 | One list placed, when the outcome is not `invalidate`, is the server's changed list up to the same edge, sorted, with at least pages x limit rows while a next cursor stands. |
| PlacementTheorems.AReadIsAskedForExactlyWhen | apps/portal/src/queries/taskPlacement.ts:163-194 | In any mode the outcome is `invalidate` if and only if the person is not known and decides, or a next cursor stands, the id is held, and either the edge's own row is the id's and the task is not shown at that same place, or the row leaves the window and what is left is less than a page's worth per page. Otherwise the outcome says what was done: inserted, removed or unchanged exactly by whether the id was held and is to be, replaced exactly when the ids keep their places, and in place every row but the task's own. |
| PlacementTheorems.ATaskNotHeldAsksForNoRead | apps/portal/src/queries/taskPlacement.ts:181-194 | A change about a task not held never has the list read again: the task is inserted where it is shown before the edge, and the list is unchanged otherwise. |
| PlacementTheorems.AnEditGoesWhereItsAnswerWould | apps/portal/src/queries/taskPlacement.ts:49-56 | An optimistic edit not kept in place goes where the answer would. |
| PlacementTheorems.NewsIsNotHeld | apps/portal/src/queries/taskPlacement.ts:142-146 | A change that is news is never taken for one already held. |
| PlacementTheorems.PlacementRefinesTheServer | apps/portal/src/queries/taskPlacement.ts:200-213 | A change that is news, placed in both lists of a scope: each list not asked to be read again is exactly the server's list after the change up to the edge it had. |
| PlacementTheorems.NoIdInBothLists | apps/portal/src/queries/taskPlacement.ts:200-213 | Windows of one server's lists never hold an id in both. |
| PlacementTheorems.WhatIsShownIsTheServers | apps/portal/src/queries/taskPlacement.ts:219-221 | With any number of extra pages asked for `windowOf` shows the first rows of the server's list, at least pages x limit of them where there are, and all asked for if and only if they are held or there are no more. |
| PlacementTheorems.NextPageExtendsTheWindow | apps/portal/src/queries/taskPlacement.ts:125-133 | Appending the page read from the unchanged edge cursor gives the longer prefix, no row lost or repeated. |
| WindowRuns.EveryRunStaysInStep | apps/portal/src/queries/taskPlacement.ts:148-221 | Over every run of server changes, reads and further pages, each list is the server's up to its edge unless it is to be read again; old rows of a list to be read again never pass for news. |
| WindowRuns.NothingCachedIsInStep | apps/portal/src/queries/taskPlacement.ts:155-155 | A page opened with nothing cached starts in step. |
| WindowRuns.TheServersRowsAreShown | apps/portal/src/queries/taskPlacement.ts:219-221 | Over every such run, with any extra pages, what is shown of a list is the first rows of the server's list at that time, at least pages x limit of them where there are. |
| WindowRuns.NoTaskIsInBoth | apps/portal/src/queries/taskPlacement.ts:200-213 | Over every such run no task is in both lists while neither is to be read again. |
| WindowRuns.ToBeReadAgainExactlyWhen | apps/portal/src/queries/taskPlacement.ts:163-194 | Over every such run a list is to be read again if and only if, since it was last read, a server change put its window's edge in doubt or was one only the unknown person decides. |
| WindowRuns.MoreIsShown | apps/portal/src/queries/taskPlacement.ts:215-221 | Asked for more, a list with more behind it holds a page more, and shows the server's rows still. |
| Ledger.Ledger.Stamp | apps/portal/src/queries/ledger.ts:31-35 | Stamps are handed out in strictly growing order. |
| Ledger.Ledger.Admit | apps/portal/src/queries/ledger.ts:36-45 | An answer is admitted unless it is older, by version where both have one and by stamp otherwise; the whole new ledger, and nothing else changed. |
| Ledger.Ledger.AdmitGone | apps/portal/src/queries/ledger.ts:46-51 | A removal is admitted unless its stamp is older, and keeps the version heard. |
| Ledger.Ledger.Holds | apps/portal/src/queries/ledger.ts:52-55 | A record is held at a version when it is not gone and was heard at or past it. |
| Ledger.ConvergesToTheLatestExactlyWhen | apps/portal/src/queries/ledger.ts:36-51 | For any mix of answers and removals with distinct stamps, every arrival order ends at the answer of the greatest stamp if and only if that answer is a removal, carries no version, or carries a version greater than every other's. |
| Ledger.SomeOrderEndsElsewhere | apps/portal/src/queries/ledger.ts:39-43 | Otherwise some order ends at another answer: a newer version may carry an older stamp. |
| Ledger.NewestVersionWins | apps/portal/src/queries/ledger.ts:36-45 | For versioned answers with no removals what is heard is the greatest version, in every order and under any stamps. |
| Ledger.RefusedExactlyWhenANewerVersionWasHeard | apps/portal/src/queries/ledger.ts:36-45 | Then an answer is refused if and only if a greater version was heard; one as great is heard again. |
| Ledger.LatestStampWins | apps/portal/src/queries/ledger.ts:36-51 | For answers without a version, and removals, what is heard is of the latest stamp, in every order. |
| Ledger.RefusedExactlyWhenALaterOneWasHeard | apps/portal/src/queries/ledger.ts:36-51 | Then an answer or a removal is refused if and only if one of a later stamp was heard. |
| Ledger.VersionedOrdersAgree | apps/portal/src/queries/ledger.ts:36-45 | Two orders of the same versioned answers end at the same version. |
| Ledger.RemovalHolds | apps/portal/src/queries/ledger.ts:36-51 | While a record is removed at a stamp, no run of answers stamped before it changes anything. |
| Ledger.EachRecordHearsItsOwn | apps/portal/src/queries/ledger.ts:31-57 | Over answers about any records, what the ledger holds of one is what the answers about that one amount to, so the claims about one record hold of the whole ledger. |
| TaskCache.EveryRunAgrees | apps/portal/src/queries/taskCache.ts:135-177 | Over every run the kept task is null exactly when the ledger says gone, and otherwise has the ledger's version. |
| TaskCache.HeldUntilRemoved | apps/portal/src/queries/taskCache.ts:135-138 | A task held at a version stays held at it until a removal of it is admitted. |
| TaskCache.HeldExactlyWhenHeard | apps/portal/src/queries/taskCache.ts:135-138 | Over every run a task is held at a version if and only if the newest answer heard of it is no removal and has that version or a greater one, and it is that answer's task. |
| TaskCache.ARemovalOutdatesEarlierReads | apps/portal/src/queries/taskCache.ts:7-12 | A write's answer takes its stamp when it lands: after a removal no read issued before it brings the task back. |
| TaskCache.AdmitHears | apps/portal/src/queries/taskCache.ts:149-177 | An answer is noted by the ledger and the kept tasks together, or by neither; an optimistic edit by neither. |
| TaskCache.Cache.ApplyToList | apps/portal/src/queries/taskCache.ts:91-105 | What a placement writes to one cached list, and which changes wait for a read in flight. |
| TaskCache.Cache.ApplyEverywhere | apps/portal/src/queries/taskCache.ts:67-106 | A change is applied to every scope some list is cached under. |
| TaskCache.Cache.Place | apps/portal/src/queries/taskCache.ts:149-157 | The whole new state after an answer. |
| TaskCache.Cache.Remove | apps/portal/src/queries/taskCache.ts:169-177 | The whole new state after a removal. |
| TaskCache.Cache.OnReadLanded | apps/portal/src/queries/taskCache.ts:45-56 | The whole new state after a list's read lands: its answer, then the changes that waited, in order. |
| TaskCache.Cache.OnReadStarted | apps/portal/src/queries/taskCache.ts:99-104 | A read issued for a list is in flight; what it held and what waits stay. |
| TaskCache.Cache.OnReadFailed | apps/portal/src/queries/taskCache.ts:45-49 | A read that fails lands nothing: what waits goes on waiting. |
| TaskCache.Cache.Held | apps/portal/src/queries/taskCache.ts:135-138 | The task as placed, when at or past a version and not gone. |
| TaskLanding.PlacementTouchesOne | apps/portal/src/queries/taskPlacement.ts:148-194 | A placement, in any mode, leaves the rows of every other task as they were. |
| TaskLanding.PlacementShowsTheChange | apps/portal/src/queries/taskPlacement.ts:148-194 | A placement that is not `invalidate`, in any mode, leaves no row of its task but the task as the change has it. |
| TaskLanding.PlacementHoldsItsRow | apps/portal/src/queries/taskPlacement.ts:148-194 | And it holds that row wherever the task belongs in the list and is not past its edge. |
| TaskLanding.LandingSaysWhatWaited | apps/portal/src/queries/taskCache.ts:45-56 | Over every run, whatever a read answers: once it lands, each task that waited for it has no row in the list but the newest heard, unless the list is read again or the scope's lists, as they stood when the read landed, held it as new; then its rows are exactly those that landed. |
| TaskLanding.NoRemovedTaskComesBack | apps/portal/src/queries/taskCache.ts:45-56 | A task that waited for the read and whose newest answer is a removal is not in the list once it lands, unless the list is read again. |
| TaskLanding.AStaleRowStaysExactlyWhen | apps/portal/src/queries/taskPlacement.ts:142-146 | After a landing a row of a task that waited, other than the newest heard, is in a list not read again if and only if the read answered with it and the scope's lists then held the newest. |
| TaskLanding.AStaleRowCanStay | apps/portal/src/queries/taskPlacement.ts:142-146 | A run from an empty cache after which the open list shows a task as it was before it was done, the done list shows it done, and neither is to be read again. |
| TaskLanding.AnAnswerWaitsExactlyWhen | apps/portal/src/queries/taskCache.ts:99-104 | A task comes to wait for a list's read if and only if an answer about it is admitted while the list is read and its placement does not have the list read again; an optimistic edit never waits. |
| TaskLanding.APlacementHasAListReadExactlyWhen | apps/portal/src/queries/taskCache.ts:88-98 | A placement has a cached list read again if and only if the scope's lists do not already hold the answer as new, the list has pages, and it cannot tell what the server now shows. |
| TaskLanding.AListIsReadExactlyWhen | apps/portal/src/queries/taskCache.ts:45-106 | Over every run a list is being read if and only if a read of it was issued, or asked for by something placed, and neither landed nor failed since. |
| TaskLanding.LandingLeavesNoneWaiting | apps/portal/src/queries/taskCache.ts:45-56 | Once a list's read lands nothing waits for it, unless it is read again. |
| TaskLanding.WaitsUntilItLands | apps/portal/src/queries/taskCache.ts:45-56 | What waits for a read waits until the read lands, whatever is placed, read or failed meanwhile. |
| TaskLanding.AnAnswerIsShownAtOnce | apps/portal/src/queries/taskCache.ts:77-106 | An answer the ledger admits, and any optimistic edit, is at once what every cached list says of its task, also while the list is read: no other row of it, and its row wherever it belongs and is not past the edge; unless it is an answer the scope's lists held as new before, which leaves its rows alone, or the placement has the list read again. |
| SnapshotReads.ALandedListIsTheSnapshotAsHeard | apps/portal/src/queries/taskCache.ts:41-59 | Over every run, when a read that saw some state of the server lands, the list is the server's list of that state with the newest heard of every task that waited, in order and up to its edge, or it is read again; only a task the scope's lists held as new by then stays as the read saw it. |
| SnapshotReads.ALateReadShowsTheServerNow | apps/portal/src/queries/taskCache.ts:41-59 | So when what changed on the server since the read saw it is what was heard meanwhile, and any task the scope held as new is one the read saw as it is now, the list that lands is the server's list as it is now up to its edge, or it is read again. |
| UserPages.FlattenOfPlaced | apps/portal/src/queries/userCache.ts:28-45 | Over the pages as one list: the member swapped where held, inserted before the first larger id, appended once every page is in hand, or not placed; pages and cursors kept. |
| UserPages.PlacedRows | apps/portal/src/queries/userCache.ts:28-45 | Placing keeps the list sorted and free of duplicates, keeps every other member, and comes to hold the answer unless the id is past the pages in hand. |
| UserPages.PlacingFollowsTheRosterExactlyWhen | apps/portal/src/queries/userCache.ts:28-45 | From pages that show the server's members up to the cursor, placing shows the server's members after the change if and only if the id is not one between the last member held and the cursor. |
| UserPages.RemovingFollowsTheRoster | apps/portal/src/queries/userCache.ts:48-51 | Removing a member always shows the server's members after the change. |
| UserPages.NextPageFollowsTheRoster | apps/portal/src/queries/userCache.ts:1-8 | The walk's next page goes on from pages with members placed in them, none lost or repeated. |
| UserPages.RemoveThenPlaceRestoresExactlyWhen | apps/portal/src/queries/userCache.ts:28-51 | Removing then placing a member restores the list if and only if the member is not the last before a next cursor. |
| UserPages.PlacingSaysOne | apps/portal/src/queries/userCache.ts:28-45 | In any order of the pages, a member held by one page at most is shown as answered and no other way, and is shown unless past the pages in hand. |
| UserPages.PlacingTouchesOne | apps/portal/src/queries/userCache.ts:28-45 | Placing a member leaves every other as they are. |
| MemberCache.EveryRunWatchesItsWaiters | apps/portal/src/queries/userCache.ts:95-110 | Over every run landings are listened for exactly while some member waits for one, and every member written during a read waits for it. |
| MemberCache.LandingShowsTheNewest | apps/portal/src/queries/userCache.ts:80-116 | Over every run, once a read lands in which no waiting member is in two pages, every member written while it was in flight is shown as last heard, absent if gone, or past the pages in hand; only a query whose shape is not known is read again instead. |
| MemberCache.AnAnswerIsShownAtOnce | apps/portal/src/queries/userCache.ts:80-93 | An answer the ledger admits is in every query at once, also while the query is read, where no two pages hold the member; only a query whose shape is not known is read again instead. |
| MemberCache.WrittenDuringAReadWaits | apps/portal/src/queries/userCache.ts:92-98 | A member written into a query while it is read waits for the read, unless the write has it read again. |
| MemberCache.AWriteHasItReadAgainExactlyWhen | apps/portal/src/queries/userCache.ts:80-98 | A write has a query read again if and only if its shape is not known; otherwise the member comes to wait if and only if the query is being read, and no other member's wait changes. |
| MemberCache.AWriteTouchesOne | apps/portal/src/queries/userCache.ts:56-66 | Writing one member leaves the others, and of the caller's own record everything but the member. |
| MemberCache.ALandedQueryIsReadAgainExactlyWhen | apps/portal/src/queries/userCache.ts:99-109 | When its read lands a query is read again if and only if its shape is not known and some member heard of waited. |
| MemberCache.KeptIsTheNewestHeard | apps/portal/src/queries/userCache.ts:112-128 | Over every run what is kept of a member is the newest answer admitted since the session last ended: the member, or that they are gone. |
| MemberCache.AQueryIsReadExactlyWhen | apps/portal/src/queries/userCache.ts:80-133 | Over every run a query is being read if and only if a read of it was issued, by itself, with the collections or for a shape that is not known, and did not end since. |
| MemberCache.ReadingTheCollectionsReadsThemAll | apps/portal/src/queries/userCache.ts:129-132 | Reading the collections has every query read and leaves what it holds and who waits. |
| MemberCache.StoppingLetsGo | apps/portal/src/queries/userCache.ts:133-138 | Once the session ends nothing is kept of any member, none waits and no landing is listened for. |
| MemberCache.NoMemberIsEverHeld | apps/portal/src/queries/userCache.ts:118-128 | Members are heard of without a version, so none is ever held and every push about one is read. |
| MemberCache.Members.WriteIntoQuery | apps/portal/src/queries/userCache.ts:80-98 | One query with the member written in: rewritten, read again where its shape is not known, waiting while a read is in flight. |
| MemberCache.Members.WriteEverywhere | apps/portal/src/queries/userCache.ts:112-116 | Every query about members gets the newest answer, whatever the order they are visited in. |
| MemberCache.Members.Place | apps/portal/src/queries/userCache.ts:123-125 | The whole new state after an answer. |
| MemberCache.Members.Remove | apps/portal/src/queries/userCache.ts:126-128 | The whole new state after a removal. |
| MemberCache.Members.OnReadLanded | apps/portal/src/queries/userCache.ts:99-109 | The whole new state after a landing: the members that waited, in order; listening ends when none waits. |
| MemberCache.Members.StopHearing | apps/portal/src/queries/userCache.ts:133-138 | Stopping lets go of every member heard and every member that waits, and listens no more. |
| Hints.NoHintIsLost | apps/portal/src/realtime/hints.ts:72-116 | Over every run, until the reader stops, each hint heard waits in an open window with both timers set or was answered after it was heard: by a read of its record, a read of the collections, or a held version at least the one it named. |
| Hints.OpenWindowsHaveTimers | apps/portal/src/realtime/hints.ts:103-115 | Over every run what is gathered is the hints since a timer last found the window due, with both timers set exactly while there are any: the quiet one for 100 ms after the last new record, the longest for 500 ms after the first hint. |
| Hints.EveryHintIsAnswered | apps/portal/src/realtime/hints.ts:103-116 | So a hint given before the stop is, at any later time until it, waiting in an open window or answered after it was given, whatever came since. |
| Hints.AFireAnswersTheWindow | apps/portal/src/realtime/hints.ts:72-90 | Over every run of a live reader, a timer that fires at or past either due time leaves nothing gathered and no timer set, and what it logs answers every hint of the window that stood; one that fires before both does nothing. |
| Hints.AWindowReadsExactlyWhatIsMissing | apps/portal/src/realtime/hints.ts:79-89 | Over every run a window that holds at most twenty records the cache does not has exactly those read, at the window's stamp; one that holds more has the collections read and no record. |
| Hints.AnswersAreSettled | apps/portal/src/realtime/hints.ts:89-99 | The answers of a window's reads are settled together and once: what is logged is a placement or a removal for each record answered or not there, and then a read of the collections if and only if some read failed. |
| Hints.EveryReadComesToSomething | apps/portal/src/realtime/hints.ts:87-99 | Over every run each read issued is under way or came to something after it: its record placed or taken out, or the collections read. |
| Hints.GatheringSummarises | apps/portal/src/realtime/hints.ts:105-111 | A window names each record once, with no version once a hint named none and the newest named otherwise. |
| Hints.GatheringIgnoresOrder | apps/portal/src/realtime/hints.ts:105-111 | What is gathered does not depend on the order of the hints, or on how often one repeats. |
| Hints.AWindowCostsAtMostABurst | apps/portal/src/realtime/hints.ts:79-99 | A window issues one read per record that is not held and no collection read when these are at most twenty, and one collection read and no record read otherwise. |
| Hints.NoRecordIsReadTwice | apps/portal/src/realtime/hints.ts:87-89 | Over every run no window reads a record twice. |
| Hints.ReadsSettle | apps/portal/src/realtime/hints.ts:93-98 | Each read that came back is placed or taken out at the stamp its window was read at, and nothing else is. |
| Hints.NothingAfterStop | apps/portal/src/realtime/hints.ts:116-121 | After the reader stops nothing is read, placed or taken out. |
| Hints.Reader.OnHint | apps/portal/src/realtime/hints.ts:103-115 | The method's new state is the step of the reader: a hint. |
| Hints.Reader.FlushWindow | apps/portal/src/realtime/hints.ts:72-90 | The method's new state is the step of the reader: the window closed and answered. |
| Hints.Reader.OnTimer | apps/portal/src/realtime/hints.ts:113-114 | The method's new state is the step of the reader: a timer due. |
| Hints.Reader.OnAnswered | apps/portal/src/realtime/hints.ts:89-99 | The method's new state is the step of the reader: a window's reads all back. |
| Hints.Reader.OnStop | apps/portal/src/realtime/hints.ts:116-121 | The method's new state is the step of the reader: the stop. |
| Breaker.OpenExactlyAfterASlowRun | infra/src/tadas/infra/breaker.py:109-144 | Over every run the breaker is open if and only if the trailing run of slow calls, early cancellations ignored, is at least the bound (and at least one); probing implies open. |
| Breaker.AnAskGoesOutExactlyWhen | infra/src/tadas/infra/breaker.py:71-85 | Over every run, from the history alone: a call is let out if and only if the trailing run of slow calls is under the bound, or no call that asked to decide is still out and a cool-down has passed since the last slow call ended. |
| Breaker.StateIsWhatHappened | infra/src/tadas/infra/breaker.py:109-144 | Over every run the breaker opened when the last slow call of such a run ended, and a call is out to decide if and only if one asked after the cool-down and none ended since. |
| Breaker.CountsAreWhatHappened | infra/src/tadas/infra/breaker.py:71-149 | Over every run each of the four outcomes was counted once each time it happened and at no other time. |
| Breaker.CountsBalance | infra/src/tadas/infra/breaker.py:71-85 | Over every run openings exceed closings by one exactly while open, and calls let out plus refusals are the calls that asked. |
| Breaker.OneCallBetweenTwoEnds | infra/src/tadas/infra/breaker.py:71-85 | While open at most one call is let out between two that end, and none while one is out. |
| Breaker.CallsOutWhileOpen | infra/src/tadas/infra/breaker.py:71-107 | Through any open spell the calls let out exceed the calls that ended by at most one. |
| Breaker.ProbesAreACooldownApart | infra/src/tadas/infra/breaker.py:71-144 | From any state two calls let out to decide are at least a cool-down apart when no call was cancelled early between them. |
| Breaker.ASecondGoesOutSoonExactlyWhen | infra/src/tadas/infra/breaker.py:71-144 | Less than a cool-down after a call let out to decide another is let out if and only if the last event since was an early cancellation and nothing else ended since. |
| Breaker.ProbesComeCloserExactlyWhen | infra/src/tadas/infra/breaker.py:87-107 | Over any stretch after a call let out to decide, another is let out in it less than a cool-down later if and only if some ask that soon follows right on an early cancellation before anything else ended. |
| Breaker.ProbesCanComeCloser | infra/src/tadas/infra/breaker.py:98-103 | A run from a new breaker in which a probe cancelled early lets a second one out a second later, inside the cool-down. |
| Breaker.Breaker.Asked | infra/src/tadas/infra/breaker.py:71-85 | The answer and the whole new state of a call that asks. |
| Breaker.Breaker.Ended | infra/src/tadas/infra/breaker.py:87-114 | The whole new state after a call that ends, returned, raised or cancelled. |
| Breaker.Breaker.RecordFailure | infra/src/tadas/infra/breaker.py:119-135 | The whole new state after a slow call. |
| Breaker.Breaker.RecordSuccess | infra/src/tadas/infra/breaker.py:137-144 | The whole new state after a quick call. |
| Upload.SendAndConfirm | clients/typescript/src/store.ts:83-102 | Whatever the API and the store do, one call sends each part at most once, asks at most once more than there are parts, ends, and confirms only once the store misses none; every part it sent is the file's and it leaves the others alone. Each way of stopping has its cause in what failed or was not kept, and when nothing fails and the store keeps what it takes the call sends each missing part once and confirms. |
| Upload.SendParts | clients/typescript/src/store.ts:90-100 | One answer's parts are each sent as the file's slice, in its order, until one is lost, refused, or was sent before and is missing again. |
| Upload.UploadFile | clients/typescript/src/store.ts:68-107 | From the moment an upload exists every failure stops it under its id; confirmed over parts that were all this file's, what the store holds is the file. When nothing fails a call over an upload of the file's size confirms, and what is confirmed is the file if and only if the parts held before were the file's. |
| Upload.AssembledIsTheFileExactlyWhen | clients/typescript/src/store.ts:60-67 | With no part missing what the store holds is the file if and only if each part it holds is the file's slice. |
| Upload.GoneOnWithToTheEnd | clients/typescript/src/store.ts:37-50 | However often a new upload is stopped and gone on with, once no part is missing the store holds the file. |
| Upload.GoOnWithAnotherFile | clients/typescript/src/store.ts:83-85 | A call given an upload that holds another file of the same size confirms it and sends nothing. |
| Session.ASwitchThatAnswersEndsSignedIn | apps/portal/src/app/switchOrg.ts:30-49 | Whatever refusals come while the exchange runs, a switch that is answered ends holding the issued session with no moment of holding none; later refusals of any other session say nothing. |
| Session.AFailedSwitchKeepsTheSessionExactlyWhen | apps/portal/src/app/switchOrg.ts:35-43 | A switch that fails leaves the tab holding what it held if and only if no refusal of that session reached the tab meanwhile and the exchange was not a 401. |
| Session.SignedOutExactlyForARefusal | apps/portal/src/app/forgetAuthSession.ts:29-53 | In every interleaving of sign-ins, refusals and any number of overlapping switches a tab that holds a session is signed out if and only if the person does it, a refusal naming the session reaches it while that is not handed over, or a switch fails whose session was refused while handed over or by the exchange. |
| Session.EveryRunTellsItsHolds | apps/portal/src/app/forgetAuthSession.ts:44-53 | Over every interleaving the hold that counts is the one taken last, until that one ends and whatever other ends, and a hold notes a refusal if and only if one naming its session reached the tab while it counted. |
| Session.TheTabHoldsWhatItTookUpLast | apps/portal/src/app/adoptAuthSession.ts:13-16 | Over every interleaving the tab holds the session it took up last, until one of those causes signs it out. |
| Session.AnAnswerIsCachedExactlyWhen | apps/portal/src/app/adoptAuthSession.ts:1-16 | Over every run the cache holds an answer of a session if and only if a call issued under it landed since the session was last forgotten or another taken up. |
| Session.CallsUnderWayAreThoseIssued | apps/portal/src/app/forgetAuthSession.ts:9-12 | Over every run the calls under way are those issued, each under the session held then, and not landed, dropped or cleared since. |
| Session.ARefusalIsHeardExactlyWhileListening | apps/portal/src/realtime/RealtimeProvider.tsx:54-66 | A socket's refusal reaches the tab if and only if a channel was opened under its session and not stopped since. |
| Session.AFailureSignsOutExactlyWhenTheHeldWasRefused | apps/portal/src/app/switchOrg.ts:35-43 | Whatever else happens on the tab meanwhile, another switch excepted, a failed switch signs it out if and only if a refusal of the session it handed over reached the tab, past the client's gate or through a channel not stopped, or the exchange was a 401. |
| Session.AFailedSwitchForgetsANewerSession | apps/portal/src/app/switchOrg.ts:35-43 | A tab signed in anew while a switch waits loses the new session when the old one was refused before that sign-in, and when the exchange itself is refused. |
| Session.ALateApiRefusalSaysNothing | clients/typescript/src/client.ts:228-230 | A 401 to a call made under a session the tab no longer holds reaches nobody. |
| Session.ClearingLeavesNothing | apps/portal/src/app/adoptAuthSession.ts:13-16 | Forgetting the session and taking up another leave nothing cached, and no query's read under way. |
| Session.NoQueryOutlivesItsSession | apps/portal/src/app/forgetAuthSession.ts:9-12 | Over every run a query's read under way was issued under the session held. |
| Session.AnswersOfAnotherSessionAreCachedExactlyWhen | apps/portal/src/app/adoptAuthSession.ts:1-16 | Over every run an answer of another session than the one held is cached if and only if a call whose caller writes its answer, issued under another session, landed since the session was last forgotten or another taken up. |
| Session.AWriteCanLandInTheNextSession | apps/portal/src/features/tasks/useTasksVm.ts:130-130 | The run that fails: a write issued under one session is answered after another is taken up, and is cached under that one. |
| Session.Tab.Forget | apps/portal/src/app/forgetAuthSession.ts:9-12 | The method's new state is the step of the session machine: the session forgotten with everything fetched under it. |
| Session.Tab.ForgetIfHeld | apps/portal/src/app/forgetAuthSession.ts:29-35 | The method's new state is the step of the session machine: a refusal that reached the tab noted on the hold, acted on, or dropped. |
| Session.Tab.TakeHold | apps/portal/src/app/forgetAuthSession.ts:44-46 | The method's new state is the step of the session machine: the session held while it is handed over. |
| Session.Tab.Release | apps/portal/src/app/forgetAuthSession.ts:47-52 | The method's new state is the step of the session machine: a hold ended, by whoever still holds it. |
| Session.Tab.Adopt | apps/portal/src/app/adoptAuthSession.ts:13-16 | The method's new state is the step of the session machine: a new session taken up. |
| Session.Tab.Switched | apps/portal/src/app/switchOrg.ts:46-48 | The method's new state is the step of the session machine: the new session taken up before the hold ends. |
| Session.Tab.SwitchFailed | apps/portal/src/app/switchOrg.ts:35-43 | The method's new state is the step of the session machine: the hold released and what it noted acted on. |
| Session.Tab.ClearCache | apps/portal/src/app/forgetAuthSession.ts:9-12 | Clearing the cache drops what it holds and every query's read, and leaves the calls whose caller writes the answer. |
| Session.Tab.OnUnauthorized | clients/typescript/src/client.ts:228-230 | A 401 acts only when the session it answers is still held. |
| Session.Tab.OnUnauthenticated | apps/portal/src/realtime/RealtimeProvider.tsx:54-66 | A 4401 close acts through its channel until that is stopped. |
| Session.Tab.OnCallLands | apps/portal/src/features/tasks/useTasksVm.ts:123-136 | An answer is cached as of the session it was issued under. |
| Retry.WaitsAreBounded | clients/typescript/src/retry.ts:92-98 | Every wait is at most the cap, and is the longer of what the server asked up to the cap and what would be waited with nothing asked. |
| Retry.WaitsFollowTheCurve | clients/typescript/src/retry.ts:92-98 | With nothing asked a wait is the capped curve times one less the jitter share the draw leaves, so between the share that is not drawn and the whole. |
| Retry.TheCurveGrowsByItsFactor | clients/typescript/src/retry.ts:93-94 | The curve begins at the base and grows by the same factor with each attempt. |
| Retry.RepeatedExactlyWhenItMayBe | clients/typescript/src/retry.ts:38-42 | A request may be repeated if and only if its method spells GET, HEAD or OPTIONS in either case, or POST and its key is not empty. |
| Retry.WaitsGrowExactlyUnderTheCap | clients/typescript/src/retry.ts:64-71 | With growth 2 and half of each wait drawn, every draw of one attempt is at most every draw of the next if and only if the next is still under the cap (or the cap is zero). |
| Retry.WaitsNeverShrinkBefore | clients/typescript/src/retry.ts:64-71 | So every draw of an attempt is at most every draw of any later one whose curve is under the cap. |
| Retry.RequestWaitsGrow | clients/typescript/src/retry.ts:136-138 | The transport client's waits grow so if and only if the next is still under five seconds. |
| Retry.Request | clients/typescript/src/client.ts:260-280 | A call makes at most bound + 1 attempts, one when it may not be repeated, waits at most bound x cap in all, and answers with its last attempt. It goes on exactly after a time-out, another error, or a status of 502, 503 or 504, until it is answered, the attempts are spent or the caller has given up. |
| Retry.Retries.Failed | clients/typescript/src/retry.ts:121-124 | One more failure counted, and the wait that follows it. |
| Retry.Retries.Reset | clients/typescript/src/retry.ts:127-129 | A success starts the count over. |

## Left out

- In-place placements: what they do to the rows is stated for every mode, the refinement claims leave them out, because they leave the order on purpose (`apps/portal/src/queries/taskPlacement.ts:187-189`).
- The archive list (`apps/portal/src/queries/taskCache.ts:112-122`): it holds no ledger or window of its own, and would add a filter.
- Queries nobody watches: an invalidation is a read issued now, so a list invalidated while no screen shows it, and read only later, is not modelled. Queries dropped from the cache are not either.
- A person not known yet in the `mine` scope is modelled as `invalidate`; the person's own query changing while a placement runs is not.
- `microsOf` and `Date.parse`: instants are integers as parsed. `BigInt`'s other spellings of a number and ids outside the basic plane (compared by code unit) are not modelled.
- Number limits: times, waits and the clock are reals or unbounded integers, so `Infinity` past the cap and lost precision are not modelled; the cap takes both.
- Timers fire at any time at or after they are due, and sockets, tickets and reads answer at any time, or never. Their delays are the subject only in `Hints` and `Retry`.
- A router or an announcement that throws, and errors inside the query library.
- What a query's answer is made of is taken from the key factory's and the router's own notes (`apps/portal/src/queries/keys.ts:7-64`, `apps/portal/src/realtime/router.ts:24-33`); the queries' own code is not modelled.
- The client's header details, deadlines and JSON parsing in `attempt`.
- Which writes put their answer where: a call's answer counts as cached from when its caller writes it, whether or not a list is there to show it. A hint reader's single read counts as such a call, dropped when its reader stops.
- `retryAfterHeaderMs`: the server's ask is taken as parsed.
- The upload's names, content types, deadlines and idempotency key; the server's side of confirming, which may fail at any time.
- The breaker's log lines, and settings that are not numbers.
- DeliveryTheorems.TheFirstHelloIsCaughtUp: takes production times that go back by no more than the margin; the relay could delay an event longer, and `TheMarginIsExact` says what is missed then.
- Router.LastPerKeyTouchesTheSame: assumes entity names without slashes; `UnderOneKeyTouchesAgreeExactlyWhen` says what is needed, and `PushedPagesTouchTheSame` that every pushed entity's name is one.
- MemberCache.LandingShowsTheNewest: takes pages in which no waiting member is held twice, as pages each read from the cursor of the one before are; of a member in two pages only the first is rewritten.
- WindowRuns.EveryRunStaysInStep: reads there are atomic and each server change is placed in the order the server made it; a read that lands after changes were placed is the subject of `SnapshotReads`, late answers that of the ledger.
- User interface, routing, theme, generated types, the server's managers, operations scripts and telemetry.
- The task cache's own stop (`apps/portal/src/queries/taskCache.ts:201-204`): it drops the ledger, the kept tasks and the watch at once with the session; the members' stop is modelled.
- Upper-casing a method's letters outside a to z.
