/** What the channel's inbox promises over every run of frames, timers, answers and stops. */
module DeliveryTheorems {
  import opened Options
  import opened Envelopes
  import opened Stream
  import opened Router
  import opened Delivery
  import opened DeliveryInvariant

  /** Passed notices woven with the first catch-up's: where each of the woven sequence comes from. */
  lemma WovenAt(ns: seq<Change>, block: seq<Change>, at: nat, i: nat)
    requires at <= |ns| && i < |ns| + |block|
    ensures var woven := Weave(ns, Some(Caught(at, block)));
            && |woven| == |ns| + |block|
            && woven[i] == if i < at then ns[i] else if i < at + |block| then block[i - at] else ns[i - |block|]
  {
  }

  ghost predicate Below(block: seq<Change>, base: int, ns: seq<Change>) {
    && (forall i :: 0 <= i < |block| ==> block[i].seqNo <= base)
    && (forall i :: 0 <= i < |ns| ==> base < ns[i].seqNo)
  }

  ghost predicate ToldOnce(told: seq<Change>) {
    forall i, j :: 0 <= i < j < |told| ==> told[i].seqNo != told[j].seqNo
  }

  lemma WovenOnce(ns: seq<Change>, block: seq<Change>, at: nat, base: int)
    requires Ascending(ns) && Ascending(block) && Below(block, base, ns) && at <= |ns|
    ensures ToldOnce(Weave(ns, Some(Caught(at, block))))
  {
    var woven := Weave(ns, Some(Caught(at, block)));
    forall i, j | 0 <= i < j < |woven|
      ensures woven[i].seqNo != woven[j].seqNo
    {
      WovenAt(ns, block, at, i);
      WovenAt(ns, block, at, j);
    }
  }

  lemma WovenInOrder(ns: seq<Change>, block: seq<Change>, at: nat, base: int)
    requires Ascending(ns) && Ascending(block) && Below(block, base, ns) && at <= |ns|
    ensures Ascending(Weave(ns, Some(Caught(at, block)))) <==> block == [] || at == 0
  {
    var woven := Weave(ns, Some(Caught(at, block)));
    if block != [] && at > 0 {
      WovenAt(ns, block, at, at - 1);
      WovenAt(ns, block, at, at);
      assert woven[at].seqNo < woven[at - 1].seqNo;
    } else {
      forall i, j | 0 <= i < j < |woven|
        ensures woven[i].seqNo < woven[j].seqNo
      {
        WovenAt(ns, block, at, i);
        WovenAt(ns, block, at, j);
      }
    }
  }

  /** What a state told, as the woven sequence the two lemmas above speak of. */
  lemma ToldIsWoven(s: State) returns (ns: seq<Change>, base: int)
    requires Path(s) && Telling(s)
    ensures Ascending(ns) && Ascending(Block(s.caught)) && Below(Block(s.caught), base, ns)
    ensures s.told == Weave(ns, s.caught) && (s.caught.Some? ==> s.caught.value.at <= |ns|)
    ensures !s.stopped && s.running.Idle? ==> ns == Notices(s.passed)
  {
    hide Notices, Weave;
    var all, block := Notices(s.passed), Block(s.caught);
    var m := |s.told| - |block|;
    ns, base := all[..m], if s.base.Some? then s.base.value else 0;
    NoticesAscending(s.passed);
    NoticesSound(s.passed);
    assert forall i :: 0 <= i < m ==> ns[i] == all[i] && all[i] in s.passed;
    assert forall i :: 0 <= i < |block| ==> block[i] in block;
    if !s.stopped && s.running.Idle? {
      assert all[m..] == [];
      assert ns == all;
    }
  }

  /** No notice is told twice, whatever arrives in whatever order. */
  lemma {:induction false} NoticesAreToldOnce(cfg: Config, events: seq<Event>)
    requires TailsInOrder(cfg, events)
    ensures ToldOnce(Run(cfg, events).told)
  {
    RunKeeps(cfg, events);
    var s := Run(cfg, events);
    var ns, base := ToldIsWoven(s);
    if s.caught.Some? {
      WovenOnce(ns, s.caught.value.notices, s.caught.value.at, base);
    }
  }

  /** What a live channel has told between two jobs. */
  ghost predicate AllTold(s: State) {
    !s.stopped && s.running.Idle? ==> s.told == Weave(Notices(s.passed), s.caught)
  }

  /**
   Between jobs a live channel has told every notice its cursor passed, and the first catch-up's:
   no more, no fewer.
   */
  lemma {:induction false} NoticesAreAllTold(cfg: Config, events: seq<Event>)
    requires TailsInOrder(cfg, events)
    ensures AllTold(Run(cfg, events))
  {
    RunKeeps(cfg, events);
    var ns, base := ToldIsWoven(Run(cfg, events));
  }

  /** Notices come in stream order exactly when none was told before the first catch-up's own. */
  lemma {:induction false} WhenNoticesComeInStreamOrder(cfg: Config, events: seq<Event>)
    requires TailsInOrder(cfg, events)
    ensures var s := Run(cfg, events);
            Ascending(s.told) <==> s.caught.None? || s.caught.value.notices == [] || s.caught.value.at == 0
  {
    RunKeeps(cfg, events);
    var s := Run(cfg, events);
    var ns, base := ToldIsWoven(s);
    if s.caught.Some? {
      WovenInOrder(ns, s.caught.value.notices, s.caught.value.at, base);
    }
  }

  lemma RunAppends(cfg: Config, events: seq<Event>, e: Event)
    ensures Run(cfg, events + [e]) == Step(cfg, Run(cfg, events), e)
  {
    assert (events + [e])[..|events|] == events;
  }

  const EARLY := Record(REMINDED_KIND, "t1", 1, 0)
  const LATE := Record(REMINDED_KIND, "t2", 2, 0)

  predicate HelloCame(events: seq<Event>) {
    exists k :: 0 <= k < |events| && events[k].Frame? && events[k].frame.Hello?
  }

  /** A server says hello before it sends anything else on a socket. */
  ghost predicate HelloComesFirst(events: seq<Event>) {
    events != [] ==>
      var before, e := events[..|events| - 1], events[|events| - 1];
      HelloComesFirst(before) && (e.Frame? && !e.frame.Hello? ==> HelloCame(before))
  }

  /** A run a server can give rise to, and the state it ends in. */
  ghost predicate Reaches(cfg: Config, events: seq<Event>, s: State) {
    TailsInOrder(cfg, events) && HelloComesFirst(events) && Run(cfg, events) == s
  }

  lemma NothingReaches(cfg: Config)
    ensures Reaches(cfg, [], INITIAL)
  {
  }

  lemma Continue(cfg: Config, events: seq<Event>, s: State, e: Event)
    requires Reaches(cfg, events, s)
    requires (e.Frame? ==> e.frame.Hello?) && (e.Page? && s.running.ReadingTail? ==> Oldest1st(e.records))
    ensures Reaches(cfg, events + [e], Step(cfg, s, e))
  {
    hide Step;
    assert (events + [e])[..|events|] == events;
  }

  const HELLO := Frame(Hello(1, Some(0)), 0)
  const QUEUED := [FirstCatchUp(1, Some(0), 0), Deliver(Hello(1, Some(0)))]
  const WAITING := State(Some(1), [CatchUp] + QUEUED, Refreshing, false, [], [], 1, Some(1), [], None, [])
  const ASKING := State(Some(1), QUEUED, Replaying(1, [], Finish), false, [], [], 1, Some(1), [], None, [])

  /** With no cursor a poll refreshes everything. */
  lemma PollRefreshes(cfg: Config)
    ensures Step(cfg, Step(cfg, INITIAL, Polled), Proceed) == StartRefresh(INITIAL)
  {
  }

  /** Another poll's catch-up waits behind the refresh, and the hello moves the cursor under it. */
  lemma PollWaitsBehindARefresh(cfg: Config)
    ensures Step(cfg, Step(cfg, StartRefresh(INITIAL), Polled), HELLO) == WAITING
  {
    assert [CatchUp] + [FirstCatchUp(1, Some(0), 0)] + [Deliver(Hello(1, Some(0)))] == WAITING.inbox;
  }

  /** When its turn comes it replays from the cursor the hello set. */
  lemma PollReplaysFromTheHello(cfg: Config)
    ensures Step(cfg, Step(cfg, WAITING, Refreshed(true)), Proceed) == ASKING
  {
    assert WAITING.inbox[1..] == QUEUED;
  }

  /** A run in which a notice past the hello's head is told before the first catch-up reads the tail. */
  lemma ReplayIsToldBeforeTheTail(cfg: Config) returns (events: seq<Event>, s: State)
    requires cfg.pageSize > 1
    ensures Reaches(cfg, events, s)
    ensures s.running == ReadingTail(1, ReadsBegan(0, 0)) && s.told == [ChangeOf(LATE)] && !s.stopped
  {
    hide Reaches, Step;
    NothingReaches(cfg);
    Continue(cfg, [], INITIAL, Polled);
    assert [] + [Polled] == [Polled];
    Continue(cfg, [Polled], Step(cfg, INITIAL, Polled), Proceed);
    PollRefreshes(cfg);
    events := [Polled] + [Proceed];
    Continue(cfg, events, StartRefresh(INITIAL), Polled);
    Continue(cfg, events + [Polled], Step(cfg, StartRefresh(INITIAL), Polled), HELLO);
    PollWaitsBehindARefresh(cfg);
    events := events + [Polled] + [HELLO];
    Continue(cfg, events, WAITING, Refreshed(true));
    Continue(cfg, events + [Refreshed(true)], Step(cfg, WAITING, Refreshed(true)), Proceed);
    PollReplaysFromTheHello(cfg);
    events := events + [Refreshed(true)] + [Proceed];
    Continue(cfg, events, ASKING, Page([LATE]));
    s := AskedAndAnswered(cfg);
    Continue(cfg, events + [Page([LATE])], Step(cfg, ASKING, Page([LATE])), Proceed);
    events := events + [Page([LATE])] + [Proceed];
  }

  lemma AskedAndAnswered(cfg: Config) returns (s: State)
    requires cfg.pageSize > 1
    ensures s == Step(cfg, Step(cfg, ASKING, Page([LATE])), Proceed)
    ensures s.running == ReadingTail(1, ReadsBegan(0, 0)) && s.told == [ChangeOf(LATE)] && !s.stopped
  {
    hide ReplayPage;
    OneRecordReplay(cfg, ASKING, LATE);
    var answered := Step(cfg, ASKING, Page([LATE]));
    assert answered == ReplayPage(cfg, ASKING, [LATE]);
    s := Step(cfg, answered, Proceed);
  }

  /** A run a server can give rise to, in which notices are told out of stream order. */
  lemma NoticesCanComeOutOfOrder()
    ensures exists cfg, events ::
              TailsInOrder(cfg, events) && HelloComesFirst(events) && !Ascending(Run(cfg, events).told)
  {
    hide Step, TailPage;
    var cfg := Config(200, {});
    var before, s := ReplayIsToldBeforeTheTail(cfg);
    var answer := Page([EARLY, LATE]);
    Continue(cfg, before, s, answer);
    TailIsTold(cfg, s);
    var told := Run(cfg, before + [answer]).told;
    assert told[0].seqNo == 2 && told[1].seqNo == 1;
  }

  lemma TailIsTold(cfg: Config, s: State)
    requires s.running == ReadingTail(1, ReadsBegan(0, 0)) && !s.stopped && cfg.pageSize > 0
    ensures Step(cfg, s, Page([EARLY, LATE])).told == s.told + [ChangeOf(EARLY)]
  {
    hide TailPage;
    TwoRecordTail(cfg, s);
  }

  lemma OneRecordReplay(cfg: Config, s: State, r: Record)
    requires s.running == Replaying(r.seqNo - 1, [], Finish) && s.cursor == Some(r.seqNo - 1)
    requires !s.stopped && IsNotice(ChangeOf(r)) && cfg.pageSize > 1
    ensures var t := ReplayPage(cfg, s, [r]);
            t.told == s.told + [ChangeOf(r)] && t.running.Idle? && !t.stopped && t.inbox == s.inbox
            && t.cursor == Some(r.seqNo)
  {
    var changes := ChangesOf([r]);
    assert changes == [ChangeOf(r)] && changes[..0] == [];
    assert ApplyAll(s.cursor, []) == Applied(s.cursor, []);
    assert ApplyAll(s.cursor, changes) == Applied(Some(r.seqNo), [ChangeOf(r)]);
    assert Notices([ChangeOf(r)]) == Notices([]) + [ChangeOf(r)] == [ChangeOf(r)];
  }

  lemma TailUpToTheHead()
    ensures UpTo([EARLY, LATE], 1) == [EARLY]
  {
    assert [EARLY, LATE][1..] == [LATE] && [LATE][1..] == [];
    assert UpTo([LATE], 1) == UpTo([], 1) == [];
  }

  lemma TailIsRecent()
    ensures ProducedSince([EARLY], ReadsBegan(0, 0)) == [EARLY]
    ensures ChangesOf([EARLY]) == [ChangeOf(EARLY)] && Notices([ChangeOf(EARLY)]) == [ChangeOf(EARLY)]
  {
    assert [EARLY][1..] == [];
    assert ProducedSince([], ReadsBegan(0, 0)) == [];
    assert Notices([ChangeOf(EARLY)]) == Notices([]) + [ChangeOf(EARLY)];
  }

  /** The whole stream from its start, of which the hello's head leaves the first record. */
  lemma TwoRecordTail(cfg: Config, s: State)
    requires s.running == ReadingTail(1, ReadsBegan(0, 0)) && !s.stopped && cfg.pageSize > 0
    ensures TailPage(cfg, s, [EARLY, LATE]).told == s.told + [ChangeOf(EARLY)]
  {
    hide UpTo, ProducedSince, Notices, ChangesOf, LastPerKey;
    TailUpToTheHead();
    TailIsRecent();
  }

  /** A hello that names the cursor comes while no catch-up waits in the inbox. */
  ghost predicate HelloComesFirstInLine(cfg: Config, events: seq<Event>) {
    events != [] ==>
      var before, e := events[..|events| - 1], events[|events| - 1];
      var s := Run(cfg, before);
      && HelloComesFirstInLine(cfg, before)
      && (e.Frame? && e.frame.Hello? && s.cursor.None? && !s.stopped ==> CatchUp !in s.inbox)
  }

  ghost predicate NoFirstCatchUp(inbox: seq<Job>) {
    forall job :: job in inbox ==> !job.FirstCatchUp?
  }

  /** No notice is told before the first catch-up: not before the hello, nor before its turn, nor while it reads. */
  ghost predicate NoneBeforeTheCatchUp(s: State) {
    && (s.caught.Some? ==> s.caught.value.at == 0)
    && (s.stopped
        || (s.cursor.None? && s.told == [] && (forall job :: job in s.inbox ==> job.CatchUp?)
            && (s.running.Idle? || s.running.Refreshing?))
        || (s.cursor.Some? && s.inbox != [] && s.inbox[0].FirstCatchUp? && NoFirstCatchUp(s.inbox[1..])
            && s.told == [] && (s.running.Idle? || s.running.Refreshing?))
        || (s.cursor.Some? && s.running.ReadingTail? && s.told == [] && NoFirstCatchUp(s.inbox))
        || (s.cursor.Some? && !s.running.ReadingTail? && NoFirstCatchUp(s.inbox)))
  }

  lemma ProceedKeepsNoneBefore(cfg: Config, s: State)
    requires NoneBeforeTheCatchUp(s)
    ensures NoneBeforeTheCatchUp(Step(cfg, s, Proceed))
  {
    hide LastPerKey, ApplyAll, Notices, UpTo, TailSince;
    if s.inbox != [] {
      assert s.inbox[0] in s.inbox && forall job :: job in s.inbox[1..] ==> job in s.inbox;
    }
  }

  lemma EnqueueKeepsNoneBefore(s: State, job: Job)
    requires NoneBeforeTheCatchUp(s) && !job.FirstCatchUp? && (s.cursor.None? && !s.stopped ==> job.CatchUp?)
    ensures NoneBeforeTheCatchUp(Enqueue(s, job))
  {
    if s.inbox != [] {
      assert (s.inbox + [job])[1..] == s.inbox[1..] + [job];
    }
  }

  lemma HelloKeepsNoneBefore(s: State, head: int, sentAt: Option<int>, waited: int)
    requires NoneBeforeTheCatchUp(s) && (s.cursor.None? && !s.stopped ==> CatchUp !in s.inbox)
    ensures NoneBeforeTheCatchUp(Receive(s, Hello(head, sentAt), waited))
  {
    assert s.inbox != [] ==> s.inbox[0] in s.inbox;
    if s.cursor.None? && !s.stopped {
      assert s.inbox == [];
      var first := FirstCatchUp(head, sentAt, waited);
      assert ([] + [first] + [Deliver(Hello(head, sentAt))])[1..] == [Deliver(Hello(head, sentAt))];
    } else if !s.stopped {
      EnqueueKeepsNoneBefore(s, Deliver(Hello(head, sentAt)));
    }
  }

  lemma EndingKeepsNoneBefore(s: State, kept: seq<Change>, next: Continuation)
    requires NoneBeforeTheCatchUp(s) && (s.running.Replaying? || s.running.Resyncing?)
    ensures NoneBeforeTheCatchUp(EndReplay(s, kept, next))
  {
    hide NoFirstCatchUp;
  }

  lemma PageKeepsNoneBefore(cfg: Config, s: State, records: seq<Record>)
    requires NoneBeforeTheCatchUp(s) && s.running.Replaying?
    ensures NoneBeforeTheCatchUp(ReplayPage(cfg, s, records))
  {
    hide NoFirstCatchUp, EndReplay, Notices, LastPerKey, ApplyAll;
    var Replaying(from, kept, next) := s.running;
    var page := ApplyAll(s.cursor, ChangesOf(records));
    var moved := s.(cursor := page.cursor, passed := s.passed + page.passed,
                    routed := s.routed + Frames(LastPerKey(page.passed, cfg.readers)));
    if s.stopped {
      EndingKeepsNoneBefore(s, kept, next);
    } else {
      ApplyAllPasses(s.cursor.value, ChangesOf(records));
      EndingKeepsNoneBefore(moved, kept + Notices(page.passed), next);
    }
  }

  lemma RefreshKeepsNoneBefore(s: State, ok: bool)
    requires NoneBeforeTheCatchUp(s)
    ensures NoneBeforeTheCatchUp(RefreshedStep(s, ok))
  {
    hide NoFirstCatchUp, EndReplay;
    if s.running.Resyncing? {
      var Resyncing(head, kept, next) := s.running;
      var from := if s.cursor.None? then head else s.cursor.value;
      EndingKeepsNoneBefore(s, kept, Finish);
      EndingKeepsNoneBefore(s, kept, next);
      EndingKeepsNoneBefore(s.(cursor := Some(head), jumps := s.jumps + [Jump(from, head)]), kept, next);
    }
  }

  lemma TailKeepsNoneBefore(cfg: Config, s: State, records: seq<Record>)
    requires NoneBeforeTheCatchUp(s) && s.running.ReadingTail?
    ensures NoneBeforeTheCatchUp(TailPage(cfg, s, records))
  {
    hide NoFirstCatchUp, Notices, LastPerKey, UpTo, TailSince;
  }

  lemma StepKeepsNoneBefore(cfg: Config, s: State, e: Event)
    requires NoneBeforeTheCatchUp(s)
    requires e.Frame? && !e.frame.Hello? ==> s.cursor.Some? || s.stopped
    requires e.Frame? && e.frame.Hello? && s.cursor.None? && !s.stopped ==> CatchUp !in s.inbox
    ensures NoneBeforeTheCatchUp(Step(cfg, s, e))
  {
    hide NoFirstCatchUp, Enqueue, ReplayPage, TailPage, EndReplay, RefreshedStep, ProceedStep, Receive;
    match e
    case Frame(frame, waited) =>
      if frame.Hello? {
        HelloKeepsNoneBefore(s, frame.head, frame.sentAt, waited);
      } else {
        OtherFrameIsQueued(s, frame, waited);
        if !s.stopped {
          EnqueueKeepsNoneBefore(s, Deliver(frame));
        }
      }
    case Opened => EnqueueKeepsNoneBefore(s, CatchUp);
    case Polled => EnqueueKeepsNoneBefore(s, CatchUp);
    case Stable => EnqueueKeepsNoneBefore(s, CatchUp);
    case Proceed => ProceedKeepsNoneBefore(cfg, s);
    case Page(records) =>
      if s.running.Replaying? {
        PageKeepsNoneBefore(cfg, s, records);
      } else if s.running.ReadingTail? {
        TailKeepsNoneBefore(cfg, s, records);
      }
    case Failed =>
      if s.running.Replaying? {
        EndingKeepsNoneBefore(s, s.running.kept, s.running.next);
      }
    case Refreshed(ok) => RefreshKeepsNoneBefore(s, ok);
    case _ =>
  }

  lemma OtherFrameIsQueued(s: State, frame: Envelope, waited: int)
    requires !frame.Hello?
    ensures Receive(s, frame, waited) == if s.stopped then s else Enqueue(s, Deliver(frame))
  {
  }

  lemma {:induction false} HelloNamesTheCursor(cfg: Config, events: seq<Event>)
    requires HelloCame(events)
    ensures Run(cfg, events).cursor.Some? || Run(cfg, events).stopped
  {
    hide Step, Run, LastPerKey;
    var front, e := events[..|events| - 1], events[|events| - 1];
    assert events == front + [e];
    RunAppends(cfg, front, e);
    if HelloCame(front) {
      HelloNamesTheCursor(cfg, front);
      StepKeepsTheCursor(cfg, Run(cfg, front), e);
    } else {
      assert e.Frame? && e.frame.Hello?;
      HelloSetsTheCursor(cfg, Run(cfg, front), e);
    }
  }

  lemma StepKeepsTheCursor(cfg: Config, s: State, e: Event)
    requires s.cursor.Some? || s.stopped
    ensures Step(cfg, s, e).cursor.Some? || Step(cfg, s, e).stopped
  {
    StepStaysStopped(cfg, s, e);
    if s.cursor.Some? {
      StepNeverGoesBack(cfg, s, e);
    }
  }

  lemma HelloSetsTheCursor(cfg: Config, s: State, e: Event)
    requires e.Frame? && e.frame.Hello?
    ensures Step(cfg, s, e).cursor.Some? || Step(cfg, s, e).stopped
  {
  }

  lemma {:induction false} RunKeepsNoneBefore(cfg: Config, events: seq<Event>)
    requires HelloComesFirst(events) && HelloComesFirstInLine(cfg, events)
    ensures NoneBeforeTheCatchUp(Run(cfg, events))
  {
    hide Step, HelloCame;
    if events != [] {
      hide NoneBeforeTheCatchUp;
      var front, e := events[..|events| - 1], events[|events| - 1];
      RunKeepsNoneBefore(cfg, front);
      if HelloCame(front) {
        HelloNamesTheCursor(cfg, front);
      }
      StepKeepsNoneBefore(cfg, Run(cfg, front), e);
    }
  }

  /** So notices come in stream order over every run whose first hello finds no catch-up waiting. */
  lemma {:induction false} NoticesComeInOrderUnlessACatchUpWaits(cfg: Config, events: seq<Event>)
    requires TailsInOrder(cfg, events) && HelloComesFirst(events) && HelloComesFirstInLine(cfg, events)
    ensures Ascending(Run(cfg, events).told)
  {
    hide Run;
    RunKeepsNoneBefore(cfg, events);
    WhenNoticesComeInStreamOrder(cfg, events);
  }

  // ------------------------------------------------------------ nothing is skipped

  lemma StepNeverGoesBack(cfg: Config, s: State, e: Event)
    requires s.cursor.Some?
    ensures Step(cfg, s, e).cursor.Some? && s.cursor.value <= Step(cfg, s, e).cursor.value
  {
    if e.Page? && s.running.Replaying? {
      ApplyAllPasses(s.cursor.value, ChangesOf(e.records));
    }
  }

  /** The cursor never goes back, over any stretch of a run. */
  lemma {:induction false} CursorNeverGoesBack(cfg: Config, before: seq<Event>, more: seq<Event>)
    requires Run(cfg, before).cursor.Some?
    ensures var later := Run(cfg, before + more).cursor;
            later.Some? && Run(cfg, before).cursor.value <= later.value
  {
    if more == [] {
      assert before + more == before;
    } else {
      var front, e := more[..|more| - 1], more[|more| - 1];
      CursorNeverGoesBack(cfg, before, front);
      RunAppends(cfg, before + front, e);
      assert (before + front) + [e] == before + more;
      StepNeverGoesBack(cfg, Run(cfg, before + front), e);
    }
  }

  /** The move of the cursor made when a resync's refresh, its k-th event, was done. */
  ghost predicate ResyncedAt(cfg: Config, events: seq<Event>, k: nat, jump: Jump)
    requires k < |events|
  {
    var s := Run(cfg, events[..k]);
    && events[k] == Refreshed(true) && !s.stopped && s.running.Resyncing?
    && s.cursor == Some(jump.from) && s.running.head == jump.to
  }

  /** Everything was read afresh, to the end, before the cursor moved over this stretch. */
  ghost predicate ReadAfresh(cfg: Config, events: seq<Event>, jump: Jump) {
    exists k :: 0 <= k < |events| && ResyncedAt(cfg, events, k, jump)
  }

  lemma ReadAfreshEarlier(cfg: Config, events: seq<Event>, e: Event, jump: Jump)
    requires ReadAfresh(cfg, events, jump)
    ensures ReadAfresh(cfg, events + [e], jump)
  {
    var k :| 0 <= k < |events| && ResyncedAt(cfg, events, k, jump);
    assert (events + [e])[..k] == events[..k];
    assert ResyncedAt(cfg, events + [e], k, jump);
  }

  lemma StepJumps(cfg: Config, s: State, e: Event)
    requires s.running.Resyncing? ==> s.cursor.Some?
    ensures var t := Step(cfg, s, e);
            || t.jumps == s.jumps
            || (&& e == Refreshed(true) && !s.stopped && s.running.Resyncing?
                && t.jumps == s.jumps + [Jump(s.cursor.value, s.running.head)])
  {
    hide LastPerKey, ApplyAll, Notices;
  }

  /** Over every run, the cursor jumps only when a refresh begun by a resync to that head has ended. */
  lemma {:induction false} JumpsFollowARefresh(cfg: Config, events: seq<Event>)
    requires TailsInOrder(cfg, events)
    ensures forall i :: 0 <= i < |Run(cfg, events).jumps| ==> ReadAfresh(cfg, events, Run(cfg, events).jumps[i])
  {
    hide Step, ReadAfresh, Invariant;
    if events != [] {
      var front, e := events[..|events| - 1], events[|events| - 1];
      JumpsFollowARefresh(cfg, front);
      assert front + [e] == events;
      var s, t := Run(cfg, front), Run(cfg, events);
      ResyncHasCursor(cfg, front);
      StepJumps(cfg, s, e);
      forall i | 0 <= i < |t.jumps|
        ensures ReadAfresh(cfg, events, t.jumps[i])
      {
        if i < |s.jumps| {
          assert t.jumps[i] == s.jumps[i];
          ReadAfreshEarlier(cfg, front, e, s.jumps[i]);
        } else {
          ReadAfreshNow(cfg, events, t.jumps[i]);
        }
      }
    }
  }

  lemma ReadAfreshNow(cfg: Config, events: seq<Event>, jump: Jump)
    requires events != [] && ResyncedAt(cfg, events, |events| - 1, jump)
    ensures ReadAfresh(cfg, events, jump)
  {
  }

  lemma ResyncHasCursor(cfg: Config, events: seq<Event>)
    requires TailsInOrder(cfg, events)
    ensures Run(cfg, events).running.Resyncing? ==> Run(cfg, events).cursor.Some?
  {
    hide Run, Accounted, Telling, Path, OneFirstCatchUp;
    RunKeeps(cfg, events);
  }

  /** A position in a stretch the cursor jumped over once everything had been read afresh. */
  ghost predicate JumpedAfterARefresh(cfg: Config, events: seq<Event>, n: int) {
    exists jump: Jump :: jump.from < n <= jump.to && ReadAfresh(cfg, events, jump)
  }

  /**
   Every position the cursor went past was answered for: its change was passed and a
   push of its key at or after it was routed, or everything was read afresh before a
   jump over a trimmed stretch.
   */
  lemma {:induction false} NothingIsSkipped(cfg: Config, events: seq<Event>, n: int)
    requires TailsInOrder(cfg, events)
    requires var s := Run(cfg, events); s.cursor.Some? && s.base.Some? && s.base.value < n <= s.cursor.value
    ensures var s := Run(cfg, events);
            || (exists c :: c in s.passed && c.seqNo == n && Covered(cfg.readers, s.routed, c))
            || JumpedAfterARefresh(cfg, events, n)
  {
    hide Run, ReadAfresh;
    RunKeeps(cfg, events);
    JumpsFollowARefresh(cfg, events);
    var s := Run(cfg, events);
    if PassedAt(s, n) {
      var i :| 0 <= i < |s.passed| && s.passed[i].seqNo == n;
      assert s.passed[i] in s.passed;
    } else {
      var i :| 0 <= i < |s.jumps| && s.jumps[i].from < n <= s.jumps[i].to;
      assert ReadAfresh(cfg, events, s.jumps[i]);
    }
  }

  // ------------------------------------------------------------ the first catch-up

  /** Every record up to a head produced since a time is covered by a routed push. */
  ghost predicate AllCovered(cfg: Config, routed: seq<Envelope>, history: seq<Record>, head: int, since: int) {
    forall r :: r in history && r.seqNo <= head && r.producedAt >= since ==> Covered(cfg.readers, routed, ChangeOf(r))
  }

  /** A page some moment of the server answers the first catch-up with: not refused as trimmed. */
  ghost predicate IsTailPage(cfg: Config, history: seq<Record>, head: int, records: seq<Record>) {
    exists server ::
      && IsServer(history, server) && head <= server.head && server.floor <= TailStart(head, cfg.pageSize)
      && records == ServerPage(StoredAt(history, server), TailStart(head, cfg.pageSize), cfg.pageSize)
  }

  /** Every page the first catch-up reads over a run is one of the server's. */
  ghost predicate TailsServed(cfg: Config, events: seq<Event>, history: seq<Record>) {
    events != [] ==>
      var before, e := events[..|events| - 1], events[|events| - 1];
      && TailsServed(cfg, before, history)
      && (e.Page? && Run(cfg, before).running.ReadingTail? ==>
            IsTailPage(cfg, history, Run(cfg, before).running.head, e.records))
  }

  /** What the proofs take from the server about times: they go back by no more than the margin. */
  ghost predicate IsTimely(history: seq<Record>) {
    IsHistory(history, FIRST_CATCH_UP_MARGIN_MS)
  }

  /** A first catch-up's page routes every recent record up to the head, or has everything read afresh. */
  lemma TailPageReachesAll(
      cfg: Config, s: State, history: seq<Record>, head: int, sentAt: int, waited: int, records: seq<Record>)
    requires s.running == ReadingTail(head, ReadsBegan(sentAt, waited)) && !s.stopped && cfg.pageSize > 0
    requires IsTimely(history) && IsTailPage(cfg, history, head, records)
    ensures var t := TailPage(cfg, s, records);
            || t.refreshes == s.refreshes + 1
            || AllCovered(cfg, t.routed, history, head, sentAt - waited)
  {
    hide Covered, LastPerKey, After, UpTo, ProducedSince, Notices, StoredAt, IsHistory;
    var after, began := TailStart(head, cfg.pageSize), ReadsBegan(sentAt, waited);
    var server :| IsServer(history, server) && head <= server.head && server.floor <= after
                  && records == ServerPage(StoredAt(history, server), after, cfg.pageSize);
    FirstCatchUpIsComplete(history, server, head, cfg.pageSize, sentAt, waited, FIRST_CATCH_UP_MARGIN_MS);
    var recent := TailSince(UpTo(records, head), after, began);
    if recent.Some? {
      StoredIsOldest1st(history, server, FIRST_CATCH_UP_MARGIN_MS);
      PageIsOldest1st(StoredAt(history, server), after, cfg.pageSize);
      TailAscends(records, head, after, began);
      RecentAreCovered(cfg, s.routed, recent.value);
    }
  }

  /**
   How far the catch-up of a first hello has come: it waits in the inbox, reads the tail,
   has had everything read afresh since, or has every recent record covered.
   */
  ghost predicate CatchesUp(
      cfg: Config, s: State, refreshes: nat, history: seq<Record>, head: int, sentAt: int, waited: int) {
    || s.stopped || s.refreshes > refreshes
    || FirstCatchUp(head, Some(sentAt), waited) in s.inbox
    || s.running == ReadingTail(head, ReadsBegan(sentAt, waited))
    || AllCovered(cfg, s.routed, history, head, sentAt - waited)
  }

  lemma EndReplayRoutesOn(s: State, kept: seq<Change>, next: Continuation)
    ensures s.routed <= EndReplay(s, kept, next).routed && EndReplay(s, kept, next).refreshes == s.refreshes
  {
  }

  lemma StepRoutesOn(cfg: Config, s: State, e: Event)
    ensures s.routed <= Step(cfg, s, e).routed && s.refreshes <= Step(cfg, s, e).refreshes
  {
    hide LastPerKey, ApplyAll, Notices, UpTo, TailSince, EndReplay;
    if s.running.Replaying? {
      EndReplayRoutesOn(s, s.running.kept, s.running.next);
      if e.Page? {
        PageRoutesOn(cfg, s, e.records);
      }
    } else if s.running.Resyncing? {
      var Resyncing(head, kept, next) := s.running;
      var from := if s.cursor.None? then head else s.cursor.value;
      EndReplayRoutesOn(s, kept, Finish);
      EndReplayRoutesOn(s, kept, next);
      EndReplayRoutesOn(s.(cursor := Some(head), jumps := s.jumps + [Jump(from, head)]), kept, next);
    }
  }

  lemma PageRoutesOn(cfg: Config, s: State, records: seq<Record>)
    requires s.running.Replaying?
    ensures s.routed <= ReplayPage(cfg, s, records).routed && ReplayPage(cfg, s, records).refreshes == s.refreshes
  {
    hide LastPerKey, ApplyAll, Notices, EndReplay, Frames;
    var Replaying(from, kept, next) := s.running;
    var page := ApplyAll(s.cursor, ChangesOf(records));
    var moved := s.(cursor := page.cursor, passed := s.passed + page.passed,
                    routed := s.routed + Frames(LastPerKey(page.passed, cfg.readers)));
    EndReplayRoutesOn(s, kept, next);
    EndReplayRoutesOn(moved, kept + Notices(page.passed), next);
  }

  lemma StillCovered(
      cfg: Config, routed: seq<Envelope>, more: seq<Envelope>, history: seq<Record>, head: int, since: int)
    requires AllCovered(cfg, routed, history, head, since) && routed <= more
    ensures AllCovered(cfg, more, history, head, since)
  {
    hide Covered;
    var added := more[|routed|..];
    assert more == routed + added;
    forall r | r in history && r.seqNo <= head && r.producedAt >= since
      ensures Covered(cfg.readers, more, ChangeOf(r))
    {
      CoveredGrows(cfg.readers, routed, added, ChangeOf(r));
    }
  }

  lemma NothingToCover(cfg: Config, routed: seq<Envelope>, history: seq<Record>, head: int, since: int)
    requires IsTimely(history) && head <= 0
    ensures AllCovered(cfg, routed, history, head, since)
  {
    forall r | r in history
      ensures r.seqNo > head
    {
      var i :| 0 <= i < |history| && history[i] == r;
    }
  }

  lemma StepCatchesUp(
      cfg: Config, s: State, e: Event, refreshes: nat, history: seq<Record>, head: int, sentAt: int, waited: int)
    requires CatchesUp(cfg, s, refreshes, history, head, sentAt, waited) && s.refreshes >= refreshes
    requires IsTimely(history) && cfg.pageSize > 0
    requires e.Page? && s.running.ReadingTail? ==> IsTailPage(cfg, history, s.running.head, e.records)
    ensures CatchesUp(cfg, Step(cfg, s, e), refreshes, history, head, sentAt, waited)
  {
    hide LastPerKey, ApplyAll, Notices, TailPage, ReplayPage, EndReplay, ApplyPush, AllCovered, IsTimely, IsTailPage;
    StepRoutesOn(cfg, s, e);
    StepStaysStopped(cfg, s, e);
    if AllCovered(cfg, s.routed, history, head, sentAt - waited) {
      StillCovered(cfg, s.routed, Step(cfg, s, e).routed, history, head, sentAt - waited);
    } else if s.running == ReadingTail(head, ReadsBegan(sentAt, waited)) {
      if e.Page? && !s.stopped {
        TailPageReachesAll(cfg, s, history, head, sentAt, waited, e.records);
      }
    } else if FirstCatchUp(head, Some(sentAt), waited) in s.inbox {
      if head <= 0 {
        NothingToCover(cfg, s.routed, history, head, sentAt - waited);
        StillCovered(cfg, s.routed, Step(cfg, s, e).routed, history, head, sentAt - waited);
      }
      InboxKeeps(cfg, s, e, FirstCatchUp(head, Some(sentAt), waited));
    }
  }

  lemma StepStaysStopped(cfg: Config, s: State, e: Event)
    ensures s.stopped ==> Step(cfg, s, e).stopped
  {
    hide LastPerKey, ApplyAll, Notices, UpTo, TailSince;
  }

  /** A waiting job leaves the inbox only when it is taken. */
  lemma InboxKeeps(cfg: Config, s: State, e: Event, job: Job)
    requires job in s.inbox
    ensures job in Step(cfg, s, e).inbox || (e.Proceed? && s.running.Idle? && s.inbox[0] == job)
  {
    hide LastPerKey, ApplyAll, Notices, UpTo, TailSince;
    var t := Step(cfg, s, e);
    assert s.inbox != [];
    assert job in s.inbox[1..] || s.inbox[0] == job;
    InboxAfter(cfg, s, e);
  }

  lemma InboxAfter(cfg: Config, s: State, e: Event)
    ensures var t := Step(cfg, s, e);
            s.inbox <= t.inbox || (e.Proceed? && s.running.Idle? && s.inbox != [] && t.inbox == s.inbox[1..])
  {
    hide LastPerKey, ApplyAll, Notices, UpTo, TailSince;
  }

  lemma {:induction false} RunCatchesUp(
      cfg: Config, before: seq<Event>, more: seq<Event>, history: seq<Record>, head: int, sentAt: int, waited: int)
    requires Run(cfg, before).cursor.None? && !Run(cfg, before).stopped
    requires IsTimely(history) && cfg.pageSize > 0
    requires TailsServed(cfg, before + [Frame(Hello(head, Some(sentAt)), waited)] + more, history)
    ensures var s := Run(cfg, before + [Frame(Hello(head, Some(sentAt)), waited)] + more);
            && Run(cfg, before).refreshes <= s.refreshes
            && CatchesUp(cfg, s, Run(cfg, before).refreshes, history, head, sentAt, waited)
  {
    hide CatchesUp, IsTimely, IsTailPage;
    var hello := Frame(Hello(head, Some(sentAt)), waited);
    var all := before + [hello] + more;
    if more == [] {
      assert all == before + [hello];
      RunAppends(cfg, before, hello);
      HelloQueuesItsCatchUp(cfg, Run(cfg, before), history, head, sentAt, waited);
    } else {
      hide Step;
      var front, e := more[..|more| - 1], more[|more| - 1];
      assert all[..|all| - 1] == before + [hello] + front && all[|all| - 1] == e;
      RunCatchesUp(cfg, before, front, history, head, sentAt, waited);
      var s := Run(cfg, before + [hello] + front);
      StepRoutesOn(cfg, s, e);
      StepCatchesUp(cfg, s, e, Run(cfg, before).refreshes, history, head, sentAt, waited);
    }
  }

  lemma HelloQueuesItsCatchUp(
      cfg: Config, s: State, history: seq<Record>, head: int, sentAt: int, waited: int)
    requires s.cursor.None? && !s.stopped
    ensures var t := Step(cfg, s, Frame(Hello(head, Some(sentAt)), waited));
            t.refreshes == s.refreshes && CatchesUp(cfg, t, s.refreshes, history, head, sentAt, waited)
  {
    var t := Step(cfg, s, Frame(Hello(head, Some(sentAt)), waited));
    assert t.inbox[|s.inbox|] == FirstCatchUp(head, Some(sentAt), waited);
  }

  /**
   The first hello is caught up, over every run: once the inbox is done, every record up
   to its head produced since the page began reading is covered by a routed push, or
   everything was read afresh after the hello came.
   */
  lemma {:induction false} TheFirstHelloIsCaughtUp(
      cfg: Config, before: seq<Event>, more: seq<Event>, history: seq<Record>, head: int, sentAt: int, waited: int)
    requires Run(cfg, before).cursor.None? && !Run(cfg, before).stopped
    requires IsTimely(history) && cfg.pageSize > 0
    requires TailsServed(cfg, before + [Frame(Hello(head, Some(sentAt)), waited)] + more, history)
    requires var s := Run(cfg, before + [Frame(Hello(head, Some(sentAt)), waited)] + more);
             !s.stopped && s.running.Idle? && s.inbox == []
    ensures var s := Run(cfg, before + [Frame(Hello(head, Some(sentAt)), waited)] + more);
            || s.refreshes > Run(cfg, before).refreshes
            || AllCovered(cfg, s.routed, history, head, sentAt - waited)
  {
    hide Run, AllCovered, IsTimely, TailsServed;
    RunCatchesUp(cfg, before, more, history, head, sentAt, waited);
  }

  lemma PageIsOldest1st(stored: seq<Record>, after: int, limit: nat)
    requires Oldest1st(stored)
    ensures Oldest1st(ServerPage(stored, after, limit))
  {
    AfterIsTheRest(stored, after);
  }

  lemma RecentAreCovered(cfg: Config, routed: seq<Envelope>, recent: seq<Record>)
    requires Ascending(ChangesOf(recent))
    ensures forall r :: r in recent ==>
              Covered(cfg.readers, routed + Frames(LastPerKey(ChangesOf(recent), cfg.readers)), ChangeOf(r))
  {
    hide Covered, LastPerKey;
    var changes := ChangesOf(recent);
    forall r | r in recent
      ensures Covered(cfg.readers, routed + Frames(LastPerKey(changes, cfg.readers)), ChangeOf(r))
    {
      var i :| 0 <= i < |recent| && recent[i] == r;
      assert changes[i] == ChangeOf(r);
      CoveredByPage(cfg.readers, routed, changes, ChangeOf(r));
    }
  }

  // ------------------------------------------------------------ the stop

  lemma StepAfterStop(cfg: Config, s: State, e: Event)
    requires s.stopped
    ensures var t := Step(cfg, s, e);
            t.stopped && t.told == s.told && t.routed == s.routed && t.cursor == s.cursor && t.passed == s.passed
  {
  }

  /** After a stop nothing is routed, told or moved, whatever still arrives. */
  lemma {:induction false} NothingAfterStop(cfg: Config, before: seq<Event>, more: seq<Event>)
    requires Run(cfg, before).stopped
    ensures var s, t := Run(cfg, before), Run(cfg, before + more);
            t.stopped && t.told == s.told && t.routed == s.routed && t.cursor == s.cursor
  {
    if more == [] {
      assert before + more == before;
    } else {
      var front, e := more[..|more| - 1], more[|more| - 1];
      NothingAfterStop(cfg, before, front);
      RunAppends(cfg, before + front, e);
      assert (before + front) + [e] == before + more;
      StepAfterStop(cfg, Run(cfg, before + front), e);
    }
  }
}
