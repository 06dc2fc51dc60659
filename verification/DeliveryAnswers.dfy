/**
 What becomes of everything that reaches the channel's inbox: every frame is answered in its
 turn, every cue to look is followed, and nothing goes out that did not come in.
 */
module DeliveryAnswers {
  import opened Options
  import opened Envelopes
  import opened Stream
  import opened Router
  import opened Delivery
  import opened DeliveryInvariant
  import opened DeliveryTheorems

  // ------------------------------------------------------------ every frame is answered

  /** The push is routed, by itself or under a later one of its key, or the cursor is at or past it. */
  ghost predicate IsReached(cfg: Config, s: State, c: Change) {
    Covered(cfg.readers, s.routed, c) || (s.cursor.Some? && c.seqNo <= s.cursor.value)
  }

  /** A push is reached; any other frame but a pong is routed as it came. */
  ghost predicate IsAnswered(cfg: Config, s: State, frame: Envelope) {
    match frame
    case Changed(c) => IsReached(cfg, s, c)
    case Pong(_) => true
    case _ => frame in s.routed
  }

  /** A replay is under way that the push began, and will be applied again when it ends. */
  predicate WaitsForAReplay(s: State, frame: Envelope) {
    && frame.Changed? && (s.running.Replaying? || s.running.Resyncing?)
    && s.running.next == Redeliver(frame.change)
  }

  ghost predicate IsInHand(cfg: Config, s: State, frame: Envelope) {
    s.stopped || Deliver(frame) in s.inbox || WaitsForAReplay(s, frame) || IsAnswered(cfg, s, frame)
  }

  /** The push is dropped: the refresh that its replay came to failed. */
  predicate IsDropped(s: State, e: Event, frame: Envelope) {
    e == Refreshed(false) && s.running.Resyncing? && WaitsForAReplay(s, frame)
  }

  lemma StaysAnswered(cfg: Config, s: State, t: State, frame: Envelope)
    requires IsAnswered(cfg, s, frame) && s.routed <= t.routed
    requires s.cursor.Some? ==> t.cursor.Some? && s.cursor.value <= t.cursor.value
    ensures IsAnswered(cfg, t, frame)
  {
    hide Covered;
    var more := t.routed[|s.routed|..];
    assert t.routed == s.routed + more;
    if frame.Changed? && Covered(cfg.readers, s.routed, frame.change) {
      CoveredGrows(cfg.readers, s.routed, more, frame.change);
    }
  }

  lemma RoutedIsAnswered(cfg: Config, s: State, routed: seq<Envelope>, frame: Envelope)
    requires s.routed == routed + [frame]
    ensures IsAnswered(cfg, s, frame)
  {
    assert s.routed[|routed|] == frame;
  }

  /** Applied, a push is reached unless it is ahead of the cursor. */
  lemma AppliedIsReached(cfg: Config, s: State, c: Change)
    ensures ApplyPush(s, c).1.None? ==> IsReached(cfg, ApplyPush(s, c).0, c)
  {
    hide Covered;
  }

  /** However a replay ends, the push that began it is reached once it is applied again. */
  lemma EndReplayReaches(cfg: Config, s: State, kept: seq<Change>, c: Change)
    requires !s.stopped
    ensures IsReached(cfg, EndReplay(s, kept, Redeliver(c)), c)
  {
    var ended := Tell(s.(running := Idle), kept);
    AppliedIsReached(cfg, ended, c);
    if ApplyPush(ended, c).1.Some? {
      RoutedIsAnswered(cfg, EndReplay(s, kept, Redeliver(c)), ended.routed, Changed(c));
    }
  }

  lemma ReplayPageReaches(cfg: Config, s: State, records: seq<Record>, frame: Envelope)
    requires s.running.Replaying? && WaitsForAReplay(s, frame)
    ensures IsInHand(cfg, ReplayPage(cfg, s, records), frame)
  {
    hide IsReached, EndReplay, ApplyAll, Notices, LastPerKey;
    var Replaying(from, kept, next) := s.running;
    if s.stopped {
      StoppedEnds(s, kept, next);
    } else {
      var page := ApplyAll(s.cursor, ChangesOf(records));
      var moved := s.(cursor := page.cursor, passed := s.passed + page.passed,
                      routed := s.routed + Frames(LastPerKey(page.passed, cfg.readers)));
      EndReplayReaches(cfg, moved, kept + Notices(page.passed), frame.change);
    }
  }

  lemma StoppedEnds(s: State, kept: seq<Change>, next: Continuation)
    ensures s.stopped ==> EndReplay(s, kept, next).stopped
  {
  }

  lemma RefreshedReaches(cfg: Config, s: State, ok: bool, frame: Envelope)
    requires s.running.Resyncing? && WaitsForAReplay(s, frame) && ok
    ensures IsInHand(cfg, RefreshedStep(s, ok), frame)
  {
    hide IsReached, EndReplay;
    var Resyncing(head, kept, next) := s.running;
    var from := if s.cursor.None? then head else s.cursor.value;
    StoppedEnds(s, kept, next);
    if !s.stopped {
      EndReplayReaches(cfg, s, kept, frame.change);
      EndReplayReaches(cfg, s.(cursor := Some(head), jumps := s.jumps + [Jump(from, head)]), kept, frame.change);
    }
  }

  /** Taken from the inbox, a frame is answered, or begins a replay. */
  lemma StartAnswers(cfg: Config, s: State, frame: Envelope)
    requires !s.stopped
    ensures IsInHand(cfg, Start(cfg, s, Deliver(frame)), frame)
  {
    hide IsReached;
    var t := Start(cfg, s, Deliver(frame));
    match frame
    case Changed(c) => AppliedIsReached(cfg, s, c);
    case Pong(_) =>
    case _ => RoutedIsAnswered(cfg, t, s.routed, frame);
  }

  lemma TakenIsAnswered(cfg: Config, s: State, frame: Envelope)
    requires s.running.Idle? && s.inbox != [] && s.inbox[0] == Deliver(frame)
    ensures IsInHand(cfg, Step(cfg, s, Proceed), frame)
  {
    hide Start, IsAnswered;
    if !s.stopped {
      StartAnswers(cfg, s.(inbox := s.inbox[1..]), frame);
    }
  }

  lemma WaitingIsAnswered(cfg: Config, s: State, e: Event, frame: Envelope)
    requires WaitsForAReplay(s, frame) && !IsDropped(s, e, frame)
    ensures IsInHand(cfg, Step(cfg, s, e), frame)
  {
    hide IsAnswered, ReplayPage, RefreshedStep, EndReplay;
    match e
    case Page(records) =>
      if s.running.Replaying? {
        ReplayPageReaches(cfg, s, records, frame);
      }
    case Failed =>
      if s.running.Replaying? {
        StoppedEnds(s, s.running.kept, s.running.next);
        if !s.stopped {
          EndReplayReaches(cfg, s, s.running.kept, frame.change);
          ReachedIsAnswered(cfg, EndReplay(s, s.running.kept, s.running.next), frame);
        }
      }
    case Refreshed(ok) =>
      if s.running.Resyncing? {
        RefreshedReaches(cfg, s, ok, frame);
      } else {
        NotRefreshing(s, ok);
      }
    case Frame(other, waited) => ReceivingRuns(s, other, waited);
    case _ =>
  }

  lemma ReachedIsAnswered(cfg: Config, s: State, frame: Envelope)
    requires frame.Changed? && IsReached(cfg, s, frame.change)
    ensures IsAnswered(cfg, s, frame)
  {
  }

  lemma NotRefreshing(s: State, ok: bool)
    requires s.running.Replaying?
    ensures RefreshedStep(s, ok) == s
  {
  }

  lemma ReceivingRuns(s: State, frame: Envelope, waited: int)
    ensures Receive(s, frame, waited).running == s.running
  {
  }

  lemma StepKeepsInHand(cfg: Config, s: State, e: Event, frame: Envelope)
    requires IsInHand(cfg, s, frame) && !IsDropped(s, e, frame)
    ensures IsInHand(cfg, Step(cfg, s, e), frame)
  {
    hide Step, IsAnswered, WaitsForAReplay;
    StepStaysStopped(cfg, s, e);
    if !s.stopped {
      if IsAnswered(cfg, s, frame) {
        StepRoutesOn(cfg, s, e);
        if s.cursor.Some? {
          StepNeverGoesBack(cfg, s, e);
        }
        StaysAnswered(cfg, s, Step(cfg, s, e), frame);
      } else if WaitsForAReplay(s, frame) {
        WaitingIsAnswered(cfg, s, e, frame);
      } else {
        InboxKeeps(cfg, s, e, Deliver(frame));
        if Deliver(frame) !in Step(cfg, s, e).inbox {
          TakenIsAnswered(cfg, s, frame);
        }
      }
    }
  }

  /** A refresh failed over this stretch that a replay begun by the push had come to. */
  ghost predicate WasDropped(cfg: Config, before: seq<Event>, more: seq<Event>, frame: Envelope) {
    exists k :: 0 <= k < |more| && IsDropped(Run(cfg, before + more[..k]), more[k], frame)
  }

  lemma DroppedEarlier(cfg: Config, before: seq<Event>, front: seq<Event>, e: Event, frame: Envelope)
    ensures WasDropped(cfg, before, front + [e], frame) <==>
              WasDropped(cfg, before, front, frame) || IsDropped(Run(cfg, before + front), e, frame)
  {
    hide Run, IsDropped;
    var more := front + [e];
    assert forall k :: 0 <= k <= |front| ==> more[..k] == front[..k];
    assert front[..|front|] == front && more[|front|] == e;
    if WasDropped(cfg, before, front, frame) {
      var k :| 0 <= k < |front| && IsDropped(Run(cfg, before + front[..k]), front[k], frame);
      assert IsDropped(Run(cfg, before + more[..k]), more[k], frame);
    }
    if IsDropped(Run(cfg, before + front), e, frame) {
      assert IsDropped(Run(cfg, before + more[..|front|]), more[|front|], frame);
    }
    if WasDropped(cfg, before, more, frame) {
      var k :| 0 <= k < |more| && IsDropped(Run(cfg, before + more[..k]), more[k], frame);
      if k < |front| {
        assert IsDropped(Run(cfg, before + front[..k]), front[k], frame);
      }
    }
  }

  lemma {:induction false} RunKeepsInHand(
      cfg: Config, before: seq<Event>, frame: Envelope, waited: int, more: seq<Event>)
    requires !Run(cfg, before).stopped && !WasDropped(cfg, before + [Frame(frame, waited)], more, frame)
    ensures IsInHand(cfg, Run(cfg, before + [Frame(frame, waited)] + more), frame)
  {
    hide IsInHand, WasDropped, IsDropped;
    var given := before + [Frame(frame, waited)];
    if more == [] {
      assert given + more == given;
      RunAppends(cfg, before, Frame(frame, waited));
      GivenIsInHand(cfg, Run(cfg, before), frame, waited);
    } else {
      hide Step;
      var front, e := more[..|more| - 1], more[|more| - 1];
      assert more == front + [e];
      DroppedEarlier(cfg, given, front, e, frame);
      RunKeepsInHand(cfg, before, frame, waited, front);
      StepKeepsInHand(cfg, Run(cfg, given + front), e, frame);
      RunAppends(cfg, given + front, e);
      assert (given + front) + [e] == given + more;
    }
  }

  lemma GivenIsInHand(cfg: Config, s: State, frame: Envelope, waited: int)
    requires !s.stopped
    ensures IsInHand(cfg, Step(cfg, s, Frame(frame, waited)), frame)
  {
    var t := Step(cfg, s, Frame(frame, waited));
    assert t.inbox[|t.inbox| - 1] == Deliver(frame);
  }

  /** Between two jobs, with none waiting. */
  predicate IsQuiet(s: State) {
    !s.stopped && s.running.Idle? && s.inbox == []
  }

  /**
   Whatever comes meanwhile, once the inbox is done every frame a live channel received was
   answered: a push was routed, itself or under a later one of its key, or the cursor is at
   or past it; any other frame but a pong was routed. Only a push whose replay came to a
   refresh that failed is dropped.
   */
  lemma {:induction false} EveryFrameIsAnswered(
      cfg: Config, before: seq<Event>, frame: Envelope, waited: int, more: seq<Event>)
    requires !Run(cfg, before).stopped && !WasDropped(cfg, before + [Frame(frame, waited)], more, frame)
    requires IsQuiet(Run(cfg, before + [Frame(frame, waited)] + more))
    ensures IsAnswered(cfg, Run(cfg, before + [Frame(frame, waited)] + more), frame)
  {
    hide Run, WasDropped, IsAnswered;
    RunKeepsInHand(cfg, before, frame, waited, more);
  }

  // ------------------------------------------------------------ nothing goes out that did not come in

  /** The event brought the frame: a frame received, or a push a page holds as a record. */
  predicate Brings(e: Event, frame: Envelope) {
    match e
    case Frame(received, _) => received == frame
    case Page(records) => frame.Changed? && frame.change in ChangesOf(records)
    case _ => false
  }

  ghost predicate Came(events: seq<Event>, frame: Envelope) {
    exists k :: 0 <= k < |events| && Brings(events[k], frame)
  }

  /** Whatever is routed, passed, waiting, or to be applied again came in. */
  ghost predicate AllCame(events: seq<Event>, s: State) {
    && (forall frame :: frame in s.routed ==> Came(events, frame))
    && (forall c :: c in s.passed ==> Came(events, Changed(c)))
    && (forall job :: job in s.inbox && job.Deliver? ==> Came(events, job.frame))
    && ((s.running.Replaying? || s.running.Resyncing?) && s.running.next.Redeliver? ==>
          Came(events, Changed(s.running.next.change)))
  }

  lemma CameMore(events: seq<Event>, e: Event, frame: Envelope)
    ensures Came(events + [e], frame) <==> Came(events, frame) || Brings(e, frame)
  {
    hide Brings;
    var more := events + [e];
    assert more[|events|] == e;
    if Came(events, frame) {
      var k :| 0 <= k < |events| && Brings(events[k], frame);
      assert Brings(more[k], frame);
    }
    if Came(more, frame) {
      var k :| 0 <= k < |more| && Brings(more[k], frame);
      assert k < |events| ==> Brings(events[k], frame);
    }
  }

  lemma AllCameStays(events: seq<Event>, e: Event, s: State)
    requires AllCame(events, s)
    ensures AllCame(events + [e], s)
  {
    hide Came;
    forall frame
      ensures Came(events, frame) ==> Came(events + [e], frame)
    {
      CameMore(events, e, frame);
    }
  }

  lemma PushCame(events: seq<Event>, s: State, c: Change)
    requires AllCame(events, s) && Came(events, Changed(c))
    ensures AllCame(events, ApplyPush(s, c).0)
    ensures AllCame(events, s.(routed := s.routed + [Changed(c)]))
  {
    hide Came;
  }

  lemma EndReplayCame(events: seq<Event>, s: State, kept: seq<Change>, next: Continuation)
    requires AllCame(events, s) && (next.Redeliver? ==> Came(events, Changed(next.change)))
    ensures AllCame(events, EndReplay(s, kept, next))
  {
    hide Came, AllCame;
    var ended := Tell(s.(running := Idle), kept);
    TellCame(events, s, kept);
    if next.Redeliver? {
      PushCame(events, ended, next.change);
    }
  }

  lemma TellCame(events: seq<Event>, s: State, kept: seq<Change>)
    requires AllCame(events, s)
    ensures AllCame(events, Tell(s.(running := Idle), kept))
  {
    hide Came;
  }

  lemma {:induction false} PassedCame(cursor: Cursor, changes: seq<Change>)
    ensures var passed := ApplyAll(cursor, changes).passed;
            |passed| <= |changes| && forall c :: c in passed ==> c in changes
  {
    if changes != [] {
      PassedCame(cursor, changes[..|changes| - 1]);
    }
  }

  /** Routing the last change of each key of some changes that came. */
  lemma RoutesCame(events: seq<Event>, s: State, changes: seq<Change>, readers: set<string>)
    requires AllCame(events, s) && forall c :: c in changes ==> Came(events, Changed(c))
    ensures AllCame(events, s.(routed := s.routed + Frames(LastPerKey(changes, readers))))
  {
    hide Came, LastPerKey;
    OneRoutePerKey(changes, readers);
    var kept := LastPerKey(changes, readers);
    forall frame | frame in Frames(kept)
      ensures Came(events, frame)
    {
      var k :| 0 <= k < |kept| && Frames(kept)[k] == frame;
      assert kept[k] in kept;
    }
  }

  lemma PageCame(cfg: Config, events: seq<Event>, s: State, records: seq<Record>)
    requires AllCame(events, s) && forall c :: c in ChangesOf(records) ==> Came(events, Changed(c))
    ensures s.running.Replaying? ==> AllCame(events, ReplayPage(cfg, s, records))
  {
    hide Came, AllCame, LastPerKey, ApplyAll, Notices, EndReplay;
    if s.running.Replaying? {
      var Replaying(from, kept, next) := s.running;
      var page := ApplyAll(s.cursor, ChangesOf(records));
      PassedCame(s.cursor, ChangesOf(records));
      NextCame(events, s);
      EndReplayCame(events, s, kept, next);
      RoutesCame(events, s, page.passed, cfg.readers);
      var routed := s.(routed := s.routed + Frames(LastPerKey(page.passed, cfg.readers)));
      MovedCame(events, routed, page);
      var moved := routed.(cursor := page.cursor, passed := s.passed + page.passed);
      EndReplayCame(events, moved, kept + Notices(page.passed), next);
      if page.cursor.Some? {
        OnwardCame(events, moved, Replaying(page.cursor.value, kept + Notices(page.passed), next));
      }
    }
  }

  lemma NextCame(events: seq<Event>, s: State)
    requires AllCame(events, s) && (s.running.Replaying? || s.running.Resyncing?)
    ensures s.running.next.Redeliver? ==> Came(events, Changed(s.running.next.change))
  {
  }

  lemma MovedCame(events: seq<Event>, s: State, page: Applied)
    requires AllCame(events, s) && forall c :: c in page.passed ==> Came(events, Changed(c))
    ensures AllCame(events, s.(cursor := page.cursor, passed := s.passed + page.passed))
  {
    hide Came;
  }

  lemma OnwardCame(events: seq<Event>, s: State, running: Running)
    requires AllCame(events, s)
    requires (running.Replaying? || running.Resyncing?) && running.next.Redeliver? ==>
               Came(events, Changed(running.next.change))
    ensures AllCame(events, s.(running := running))
  {
    hide Came;
  }

  lemma TailCame(cfg: Config, events: seq<Event>, s: State, records: seq<Record>)
    requires AllCame(events, s) && forall c :: c in ChangesOf(records) ==> Came(events, Changed(c))
    ensures s.running.ReadingTail? ==> AllCame(events, TailPage(cfg, s, records))
  {
    hide Came, LastPerKey, Notices, UpTo, ProducedSince, AllCame;
    if s.running.ReadingTail? {
      OnwardCame(events, s, Idle);
      OnwardCame(events, s, Refreshing);
      var tail := UpTo(records, s.running.head);
      UpToKeeps(records, s.running.head);
      ProducedSinceKeeps(tail, s.running.began);
      var recent := ProducedSince(tail, s.running.began);
      forall c | c in ChangesOf(recent)
        ensures c in ChangesOf(records)
      {
        var i :| 0 <= i < |recent| && ChangesOf(recent)[i] == c;
        assert recent[i] in tail;
        var j :| 0 <= j < |records| && records[j] == recent[i];
        assert ChangesOf(records)[j] == c;
      }
      RoutesCame(events, s.(running := Idle), ChangesOf(recent), cfg.readers);
      RestCame(events, s, TailPage(cfg, s, records));
      var routed := s.(running := Idle).(routed := s.routed + Frames(LastPerKey(ChangesOf(recent), cfg.readers)));
      RestCame(events, routed, TailPage(cfg, s, records));
    }
  }

  /** What is told and how often everything was read says nothing of what came. */
  lemma RestCame(events: seq<Event>, s: State, t: State)
    requires AllCame(events, s)
    ensures (&& t.routed == s.routed && t.passed == s.passed && t.inbox == s.inbox
             && (t.running == s.running || t.running.Refreshing? || t.running.Idle?)) ==> AllCame(events, t)
  {
    hide Came;
  }

  lemma ProceedCame(cfg: Config, events: seq<Event>, s: State)
    requires AllCame(events, s)
    ensures AllCame(events, ProceedStep(cfg, s))
  {
    hide Came, AllCame;
    if s.running.Idle? && s.inbox != [] {
      var taken, from := s.(inbox := s.inbox[1..]), if s.cursor.Some? then s.cursor.value else 0;
      TakenCame(events, s);
      match s.inbox[0]
      case Deliver(frame) =>
        if frame.Changed? {
          PushCame(events, taken, frame.change);
          OnwardCame(events, taken, Replaying(from, [], Redeliver(frame.change)));
        } else if frame.Pong? {
          OnwardCame(events, taken, Replaying(from, [], Finish));
        } else {
          RoutedCame(events, taken, frame);
        }
      case CatchUp =>
        OnwardCame(events, taken, Replaying(from, [], Finish));
        RestCame(events, taken, StartRefresh(taken));
      case FirstCatchUp(head, sentAt, waited) =>
        RestCame(events, taken, StartRefresh(taken));
        if sentAt.Some? {
          OnwardCame(events, taken, ReadingTail(head, ReadsBegan(sentAt.value, waited)));
        }
    }
  }

  lemma RoutedCame(events: seq<Event>, s: State, frame: Envelope)
    requires AllCame(events, s) && Came(events, frame)
    ensures AllCame(events, s.(routed := s.routed + [frame]))
  {
    hide Came;
  }

  lemma TakenCame(events: seq<Event>, s: State)
    requires AllCame(events, s) && s.inbox != []
    ensures AllCame(events, s.(inbox := s.inbox[1..]))
    ensures s.inbox[0].Deliver? ==> Came(events, s.inbox[0].frame)
  {
    hide Came;
    assert s.inbox[0] in s.inbox && forall job :: job in s.inbox[1..] ==> job in s.inbox;
  }

  lemma RefreshedCame(events: seq<Event>, s: State, ok: bool)
    requires AllCame(events, s)
    ensures AllCame(events, RefreshedStep(s, ok))
  {
    hide Came, AllCame, EndReplay;
    match s.running
    case Refreshing => OnwardCame(events, s, Idle);
    case Resyncing(head, kept, next) =>
      var from := if s.cursor.None? then head else s.cursor.value;
      var jumped := s.(cursor := Some(head), jumps := s.jumps + [Jump(from, head)]);
      NextCame(events, s);
      RestCame(events, s, jumped);
      EndReplayCame(events, s, kept, Finish);
      EndReplayCame(events, s, kept, next);
      EndReplayCame(events, jumped, kept, next);
    case _ =>
  }

  lemma ReceiveCame(events: seq<Event>, s: State, frame: Envelope, waited: int)
    requires AllCame(events, s) && Came(events, frame)
    ensures AllCame(events, Receive(s, frame, waited))
  {
    hide Came;
  }

  lemma QueuedCame(events: seq<Event>, s: State)
    requires AllCame(events, s)
    ensures AllCame(events, Enqueue(s, CatchUp))
  {
    hide Came;
  }

  lemma StepCame(cfg: Config, events: seq<Event>, s: State, e: Event)
    requires AllCame(events, s) && forall frame :: Brings(e, frame) ==> Came(events, frame)
    ensures AllCame(events, Step(cfg, s, e))
  {
    hide Came, AllCame, ReplayPage, TailPage, EndReplay, ProceedStep, RefreshedStep, Receive, Enqueue;
    match e
    case Frame(frame, waited) => ReceiveCame(events, s, frame, waited);
    case Proceed => ProceedCame(cfg, events, s);
    case Page(records) =>
      forall c | c in ChangesOf(records)
        ensures Came(events, Changed(c))
      {
        assert Brings(e, Changed(c));
      }
      PageCame(cfg, events, s, records);
      TailCame(cfg, events, s, records);
    case Failed =>
      if s.running.Replaying? {
        NextCame(events, s);
        EndReplayCame(events, s, s.running.kept, s.running.next);
      }
      RestCame(events, s, StartRefresh(s));
    case Truncated(head) =>
      if s.running.Replaying? {
        NextCame(events, s);
        OnwardCame(events, s.(refreshes := s.refreshes + 1), Resyncing(head, s.running.kept, s.running.next)) by {
          RestCame(events, s, s.(refreshes := s.refreshes + 1));
        }
      }
      RestCame(events, s, StartRefresh(s));
    case Refreshed(ok) => RefreshedCame(events, s, ok);
    case Stop => RestCame(events, s, s.(stopped := true));
    case _ => QueuedCame(events, s);
  }

  /** Over every run nothing is routed that did not come in, as a frame or as a record of a page. */
  lemma {:induction false} NothingIsMadeUp(cfg: Config, events: seq<Event>)
    ensures AllCame(events, Run(cfg, events))
  {
    hide Step, AllCame, Came, Brings;
    if events == [] {
      NothingCame();
    } else {
      var front, e := events[..|events| - 1], events[|events| - 1];
      assert events == front + [e];
      NothingIsMadeUp(cfg, front);
      AllCameStays(front, e, Run(cfg, front));
      forall frame | Brings(e, frame)
        ensures Came(events, frame)
      {
        CameMore(front, e, frame);
      }
      StepCame(cfg, events, Run(cfg, front), e);
    }
  }

  lemma NothingCame()
    ensures AllCame([], INITIAL)
  {
  }

  // ------------------------------------------------------------ every push is answered for

  /** A seq names one record of the stream, however often and by whatever way it comes. */
  ghost predicate OneRecordPerSeq(cfg: Config, events: seq<Event>) {
    forall a, b :: Came(events, Changed(a)) && Came(events, Changed(b)) && a.seqNo == b.seqNo ==>
      ReplayKey(a, cfg.readers) == ReplayKey(b, cfg.readers)
  }

  lemma SameKeyCovers(cfg: Config, routed: seq<Envelope>, a: Change, b: Change)
    requires Covered(cfg.readers, routed, a) && a.seqNo == b.seqNo
    requires ReplayKey(a, cfg.readers) == ReplayKey(b, cfg.readers)
    ensures Covered(cfg.readers, routed, b)
  {
  }

  lemma {:induction false} HellosAreBelow(cfg: Config, events: seq<Event>)
    requires TailsInOrder(cfg, events)
    ensures var s := Run(cfg, events); s.cursor.Some? <==> s.base.Some?
  {
    hide Run, Accounted, Telling, Path, OneFirstCatchUp;
    RunKeeps(cfg, events);
  }

  /**
   So over every run each push a live channel received is answered for once the inbox is done:
   it is covered by a routed push of its key, or was before the position the cursor started
   from, or lies in a stretch jumped over once everything had been read afresh. Only a push
   whose replay came to a refresh that failed is dropped.
   */
  lemma {:induction false} EveryPushIsAnsweredFor(
      cfg: Config, before: seq<Event>, c: Change, waited: int, more: seq<Event>)
    requires !Run(cfg, before).stopped && !WasDropped(cfg, before + [Frame(Changed(c), waited)], more, Changed(c))
    requires IsQuiet(Run(cfg, before + [Frame(Changed(c), waited)] + more))
    requires TailsInOrder(cfg, before + [Frame(Changed(c), waited)] + more)
    requires OneRecordPerSeq(cfg, before + [Frame(Changed(c), waited)] + more)
    ensures var events := before + [Frame(Changed(c), waited)] + more;
            var s := Run(cfg, events);
            || Covered(cfg.readers, s.routed, c)
            || (s.base.Some? && c.seqNo <= s.base.value)
            || JumpedAfterARefresh(cfg, events, c.seqNo)
  {
    hide Run, WasDropped, Covered, TailsInOrder, JumpedAfterARefresh, ReplayKey, Came;
    var events := before + [Frame(Changed(c), waited)] + more;
    var s := Run(cfg, events);
    EveryFrameIsAnswered(cfg, before, Changed(c), waited, more);
    HellosAreBelow(cfg, events);
    NothingIsMadeUp(cfg, events);
    if !Covered(cfg.readers, s.routed, c) && c.seqNo > s.base.value {
      NothingIsSkipped(cfg, events, c.seqNo);
      if !JumpedAfterARefresh(cfg, events, c.seqNo) {
        var passed :| passed in s.passed && passed.seqNo == c.seqNo && Covered(cfg.readers, s.routed, passed);
        FrameCame(before, Frame(Changed(c), waited), more);
        SameKeyCovers(cfg, s.routed, passed, c);
      }
    }
  }

  lemma FrameCame(before: seq<Event>, e: Event, more: seq<Event>)
    requires e.Frame?
    ensures Came(before + [e] + more, e.frame)
  {
    assert Brings((before + [e] + more)[|before|], e.frame);
  }

  const AHEAD := Change("tasks.task.updated", "t", 2, None)

  /** A push two past the cursor, whose replay is refused as trimmed and whose refresh then fails. */
  const DROPPING_RUN := [
    Frame(Hello(0, Some(0)), 0), Proceed, Proceed, Frame(Changed(AHEAD), 0), Proceed, Truncated(1), Refreshed(false)
  ]

  lemma AfterTheHello(cfg: Config)
    ensures Run(cfg, DROPPING_RUN[..3])
         == State(Some(0), [], Idle, false, [Hello(0, Some(0))], [], 0, Some(0), [], None, [])
  {
    assert DROPPING_RUN[..3][..2][..1] == [DROPPING_RUN[0]] && DROPPING_RUN[..3][..2] == DROPPING_RUN[..2];
    assert [DROPPING_RUN[0]][..0] == [] && Run(cfg, []) == INITIAL;
    var first := FirstCatchUp(0, Some(0), 0);
    assert [] + [first] + [Deliver(Hello(0, Some(0)))] == [first, Deliver(Hello(0, Some(0)))];
    assert [first, Deliver(Hello(0, Some(0)))][1..] == [Deliver(Hello(0, Some(0)))];
    assert Run(cfg, [DROPPING_RUN[0]]) == Step(cfg, INITIAL, DROPPING_RUN[0]);
    assert Run(cfg, DROPPING_RUN[..2]) == Step(cfg, Run(cfg, [DROPPING_RUN[0]]), Proceed);
    assert Run(cfg, DROPPING_RUN[..3]) == Step(cfg, Run(cfg, DROPPING_RUN[..2]), Proceed);
    assert [] + [Hello(0, Some(0))] == [Hello(0, Some(0))];
  }

  /** A run a server can give rise to that ends with a push dropped: neither routed nor passed. */
  lemma AFailedRefreshDropsThePush(cfg: Config)
    ensures var s := Run(cfg, DROPPING_RUN);
            IsQuiet(s) && s.cursor == Some(0) && Changed(AHEAD) !in s.routed && !Covered(cfg.readers, s.routed, AHEAD)
  {
    hide Run;
    var run := DROPPING_RUN;
    AfterTheHello(cfg);
    var s := Run(cfg, run[..3]);
    RunAppends(cfg, run[..3], run[3]);
    RunAppends(cfg, run[..4], run[4]);
    RunAppends(cfg, run[..5], run[5]);
    RunAppends(cfg, run[..6], run[6]);
    assert run[..3] + [run[3]] == run[..4] && run[..4] + [run[4]] == run[..5];
    assert run[..5] + [run[5]] == run[..6] && run[..6] + [run[6]] == run;
    var queued := Step(cfg, s, run[3]);
    assert queued == s.(inbox := [Deliver(Changed(AHEAD))]);
    var replaying := Step(cfg, queued, Proceed);
    assert replaying == s.(running := Replaying(0, [], Redeliver(AHEAD)));
  }

  // ------------------------------------------------------------ cues to look

  /** A catch-up waits that will refresh, or one has, or there is a position to replay from. */
  ghost predicate WillRefresh(s: State, refreshes: nat) {
    s.stopped || s.cursor.Some? || s.refreshes > refreshes || CatchUp in s.inbox
  }

  lemma StepWillRefresh(cfg: Config, s: State, e: Event, refreshes: nat)
    requires WillRefresh(s, refreshes) && s.refreshes >= refreshes
    ensures WillRefresh(Step(cfg, s, e), refreshes) && Step(cfg, s, e).refreshes >= refreshes
  {
    hide Step;
    StepStaysStopped(cfg, s, e);
    StepRoutesOn(cfg, s, e);
    if s.cursor.Some? {
      StepNeverGoesBack(cfg, s, e);
    } else if !s.stopped && s.refreshes == refreshes {
      InboxKeeps(cfg, s, e, CatchUp);
      if CatchUp !in Step(cfg, s, e).inbox {
        TakenRefreshes(cfg, s);
      }
    }
  }

  lemma TakenRefreshes(cfg: Config, s: State)
    requires s.running.Idle? && s.inbox != [] && s.inbox[0] == CatchUp && s.cursor.None? && !s.stopped
    ensures Step(cfg, s, Proceed).refreshes == s.refreshes + 1
  {
  }

  /**
   A poll, or a socket open long enough with no hello, has everything read afresh on a channel
   that never learns of a position, whatever else comes meanwhile.
   */
  lemma {:induction false} ACueWithNoPositionRefreshes(cfg: Config, before: seq<Event>, cue: Event, more: seq<Event>)
    requires Run(cfg, before).cursor.None? && !Run(cfg, before).stopped && (cue.Polled? || cue.Stable?)
    requires IsQuiet(Run(cfg, before + [cue] + more)) && Run(cfg, before + [cue] + more).cursor.None?
    ensures Run(cfg, before + [cue] + more).refreshes > Run(cfg, before).refreshes
  {
    hide Run;
    RunWillRefresh(cfg, before, cue, more);
  }

  lemma {:induction false} RunWillRefresh(cfg: Config, before: seq<Event>, cue: Event, more: seq<Event>)
    requires Run(cfg, before).cursor.None? && !Run(cfg, before).stopped && (cue.Polled? || cue.Stable?)
    ensures var s := Run(cfg, before + [cue] + more);
            WillRefresh(s, Run(cfg, before).refreshes) && s.refreshes >= Run(cfg, before).refreshes
  {
    hide WillRefresh;
    if more == [] {
      assert before + [cue] + more == before + [cue];
      RunAppends(cfg, before, cue);
      CueIsQueued(cfg, Run(cfg, before), cue);
    } else {
      hide Step;
      var front, e := more[..|more| - 1], more[|more| - 1];
      RunWillRefresh(cfg, before, cue, front);
      StepWillRefresh(cfg, Run(cfg, before + [cue] + front), e, Run(cfg, before).refreshes);
      RunAppends(cfg, before + [cue] + front, e);
      assert (before + [cue] + front) + [e] == before + [cue] + more;
    }
  }

  lemma CueIsQueued(cfg: Config, s: State, cue: Event)
    requires s.cursor.None? && !s.stopped && (cue.Polled? || cue.Stable?)
    ensures var t := Step(cfg, s, cue); WillRefresh(t, s.refreshes) && t.refreshes == s.refreshes
  {
    assert CatchUp in s.inbox + [CatchUp];
  }

  /** A first hello with no time, whatever else comes, has everything read afresh. */
  ghost predicate FirstRefreshes(s: State, refreshes: nat, head: int, waited: int) {
    s.stopped || s.refreshes > refreshes || FirstCatchUp(head, None, waited) in s.inbox
  }

  lemma StepFirstRefreshes(cfg: Config, s: State, e: Event, refreshes: nat, head: int, waited: int)
    requires FirstRefreshes(s, refreshes, head, waited) && s.refreshes >= refreshes
    ensures FirstRefreshes(Step(cfg, s, e), refreshes, head, waited) && Step(cfg, s, e).refreshes >= refreshes
  {
    hide Step;
    var first := FirstCatchUp(head, None, waited);
    StepStaysStopped(cfg, s, e);
    StepRoutesOn(cfg, s, e);
    if !s.stopped && s.refreshes == refreshes {
      InboxKeeps(cfg, s, e, first);
      if first !in Step(cfg, s, e).inbox {
        FirstTakenRefreshes(cfg, s, first);
      }
    }
  }

  lemma FirstTakenRefreshes(cfg: Config, s: State, first: Job)
    requires s.running.Idle? && s.inbox != [] && s.inbox[0] == first && !s.stopped
    requires first.FirstCatchUp? && first.sentAt.None?
    ensures Step(cfg, s, Proceed).refreshes == s.refreshes + 1
  {
  }

  lemma {:induction false} RunFirstRefreshes(
      cfg: Config, before: seq<Event>, head: int, waited: int, more: seq<Event>)
    requires Run(cfg, before).cursor.None? && !Run(cfg, before).stopped
    ensures var s := Run(cfg, before + [Frame(Hello(head, None), waited)] + more);
            FirstRefreshes(s, Run(cfg, before).refreshes, head, waited) && s.refreshes >= Run(cfg, before).refreshes
  {
    hide FirstRefreshes;
    var hello := Frame(Hello(head, None), waited);
    if more == [] {
      assert before + [hello] + more == before + [hello];
      RunAppends(cfg, before, hello);
      FirstIsQueued(cfg, Run(cfg, before), head, waited);
    } else {
      hide Step;
      var front, e := more[..|more| - 1], more[|more| - 1];
      RunFirstRefreshes(cfg, before, head, waited, front);
      StepFirstRefreshes(cfg, Run(cfg, before + [hello] + front), e, Run(cfg, before).refreshes, head, waited);
      RunAppends(cfg, before + [hello] + front, e);
      assert (before + [hello] + front) + [e] == before + [hello] + more;
    }
  }

  lemma FirstIsQueued(cfg: Config, s: State, head: int, waited: int)
    requires s.cursor.None? && !s.stopped
    ensures var t := Step(cfg, s, Frame(Hello(head, None), waited));
            FirstRefreshes(t, s.refreshes, head, waited) && t.refreshes == s.refreshes
  {
    var t := Step(cfg, s, Frame(Hello(head, None), waited));
    assert t.inbox[|s.inbox|] == FirstCatchUp(head, None, waited);
  }

  /** A first hello that carries no time has everything read afresh, over every run. */
  lemma {:induction false} AHelloWithNoTimeRefreshes(
      cfg: Config, before: seq<Event>, head: int, waited: int, more: seq<Event>)
    requires Run(cfg, before).cursor.None? && !Run(cfg, before).stopped
    requires IsQuiet(Run(cfg, before + [Frame(Hello(head, None), waited)] + more))
    ensures Run(cfg, before + [Frame(Hello(head, None), waited)] + more).refreshes > Run(cfg, before).refreshes
  {
    hide Run;
    RunFirstRefreshes(cfg, before, head, waited, more);
  }

  ghost predicate IsResyncing(s: State, head: int, refreshes: nat) {
    s.running.Resyncing? && s.running.head == head && !s.stopped && s.cursor.Some? && s.refreshes > refreshes
  }

  lemma StepKeepsResyncing(cfg: Config, s: State, e: Event, head: int, refreshes: nat)
    requires IsResyncing(s, head, refreshes) && !e.Refreshed? && !e.Stop?
    ensures IsResyncing(Step(cfg, s, e), head, refreshes)
  {
  }

  lemma {:induction false} RunKeepsResyncing(cfg: Config, before: seq<Event>, head: int, more: seq<Event>)
    requires var s := Run(cfg, before); s.running.Replaying? && s.cursor.Some? && !s.stopped
    requires forall k :: 0 <= k < |more| ==> !more[k].Refreshed? && !more[k].Stop?
    ensures IsResyncing(Run(cfg, before + [Truncated(head)] + more), head, Run(cfg, before).refreshes)
  {
    hide IsResyncing;
    var refused := before + [Truncated(head)];
    if more == [] {
      assert refused + more == refused;
      RunAppends(cfg, before, Truncated(head));
      RefusedResyncs(cfg, Run(cfg, before), head);
    } else {
      hide Step;
      var front, e := more[..|more| - 1], more[|more| - 1];
      assert forall k :: 0 <= k < |front| ==> front[k] == more[k];
      RunKeepsResyncing(cfg, before, head, front);
      StepKeepsResyncing(cfg, Run(cfg, refused + front), e, head, Run(cfg, before).refreshes);
      RunAppends(cfg, refused + front, e);
      assert (refused + front) + [e] == refused + more;
    }
  }

  lemma RefusedResyncs(cfg: Config, s: State, head: int)
    requires s.running.Replaying? && s.cursor.Some? && !s.stopped
    ensures IsResyncing(Step(cfg, s, Truncated(head)), head, s.refreshes)
  {
  }

  lemma ResyncedReaches(cfg: Config, s: State, head: int, refreshes: nat)
    requires IsResyncing(s, head, refreshes)
    ensures var t := Step(cfg, s, Refreshed(true));
            t.running.Idle? && t.cursor.Some? && head <= t.cursor.value && t.refreshes > refreshes
  {
  }

  /**
   A replay refused as trimmed has everything read afresh, whatever comes meanwhile; once it
   was, the cursor is at or past the head the refusal named.
   */
  lemma {:induction false} ATrimmedReplayIsReadAfresh(cfg: Config, before: seq<Event>, head: int, more: seq<Event>)
    requires var s := Run(cfg, before); s.running.Replaying? && s.cursor.Some? && !s.stopped
    requires forall k :: 0 <= k < |more| ==> !more[k].Refreshed? && !more[k].Stop?
    ensures var t := Run(cfg, before + [Truncated(head)] + more + [Refreshed(true)]);
            && t.running.Idle? && t.cursor.Some? && head <= t.cursor.value
            && t.refreshes > Run(cfg, before).refreshes
  {
    hide Run, Step, IsResyncing;
    var events := before + [Truncated(head)] + more;
    RunKeepsResyncing(cfg, before, head, more);
    RunAppends(cfg, events, Refreshed(true));
    ResyncedReaches(cfg, Run(cfg, events), head, Run(cfg, before).refreshes);
  }

  /** A push at or before the cursor when its turn comes does nothing. */
  lemma APushSeenBeforeDoesNothing(cfg: Config, s: State, c: Change)
    requires IsTakenNext(s, Deliver(Changed(c))) && s.cursor.Some? && c.seqNo <= s.cursor.value
    ensures Step(cfg, s, Proceed) == s.(inbox := s.inbox[1..])
  {
  }

  /** A pong whose head is not past the cursor does nothing. */
  lemma APongAtTheCursorDoesNothing(cfg: Config, s: State, head: int)
    requires IsTakenNext(s, Deliver(Pong(head))) && (s.cursor.None? || head <= s.cursor.value)
    ensures Step(cfg, s, Proceed) == s.(inbox := s.inbox[1..])
  {
  }

  /** The tail a first catch-up read cannot tell what changed: it is cut off, and all of it is recent. */
  ghost predicate CannotTell(cfg: Config, head: int, began: int, records: seq<Record>) {
    && head > cfg.pageSize
    && (exists r :: r in records && r.seqNo <= head)
    && (forall r :: r in records && r.seqNo <= head ==> r.producedAt >= began)
  }

  /** Nothing less than reading everything afresh answers the event. */
  ghost predicate NeedsARefresh(cfg: Config, s: State, e: Event) {
    match e
    case Proceed =>
      && !s.stopped && s.running.Idle? && s.inbox != []
      && ((s.inbox[0].CatchUp? && s.cursor.None?) || (s.inbox[0].FirstCatchUp? && s.inbox[0].sentAt.None?))
    case Page(records) =>
      !s.stopped && s.running.ReadingTail? && CannotTell(cfg, s.running.head, s.running.began, records)
    case Failed => s.running.ReadingTail?
    case Truncated(_) => s.running.ReadingTail? || s.running.Replaying?
    case _ => false
  }

  lemma TailRefreshes(cfg: Config, s: State, records: seq<Record>)
    requires s.running.ReadingTail?
    ensures TailPage(cfg, s, records).refreshes
         == s.refreshes + if NeedsARefresh(cfg, s, Page(records)) then 1 else 0
  {
    hide UpTo, TailSince, Notices, LastPerKey;
    var tail := UpTo(records, s.running.head);
    UpToKeeps(records, s.running.head);
    TheTailTellsExactlyWhen(tail, TailStart(s.running.head, cfg.pageSize), s.running.began);
    assert tail != [] <==> exists r :: r in tail by {
      if tail != [] {
        assert tail[0] in tail;
      }
    }
  }

  /**
   Everything is read afresh exactly when nothing less answers: a catch-up with no position, a
   first hello with no time, a tail that cannot tell or could not be read, and a replay refused
   as trimmed. A position and a tail that tells are never answered by a refresh.
   */
  lemma ARefreshBeginsExactlyWhen(cfg: Config, s: State, e: Event)
    ensures Step(cfg, s, e).refreshes == s.refreshes + if NeedsARefresh(cfg, s, e) then 1 else 0
  {
    hide TailPage, ReplayPage, EndReplay, ApplyPush, CannotTell;
    match e
    case Page(records) =>
      if s.running.ReadingTail? {
        TailRefreshes(cfg, s, records);
      } else if s.running.Replaying? {
        PageRoutesOn(cfg, s, records);
      }
    case Failed =>
      if s.running.Replaying? {
        EndReplayRoutesOn(s, s.running.kept, s.running.next);
      }
    case Refreshed(ok) =>
      if s.running.Resyncing? {
        var Resyncing(head, kept, next) := s.running;
        var from := if s.cursor.None? then head else s.cursor.value;
        EndReplayRoutesOn(s, kept, Finish);
        EndReplayRoutesOn(s, kept, next);
        EndReplayRoutesOn(s.(cursor := Some(head), jumps := s.jumps + [Jump(from, head)]), kept, next);
      }
    case Proceed =>
      if s.inbox != [] && s.inbox[0].Deliver? && s.inbox[0].frame.Changed? {
        PushBeginsNoRefresh(s.(inbox := s.inbox[1..]), s.inbox[0].frame.change);
      }
    case _ =>
  }

  lemma PushBeginsNoRefresh(s: State, c: Change)
    ensures ApplyPush(s, c).0.refreshes == s.refreshes
  {
  }

  predicate IsTakenNext(s: State, job: Job) {
    !s.stopped && s.running.Idle? && s.inbox != [] && s.inbox[0] == job
  }

  // ------------------------------------------------------------ nothing goes out more often than it came in

  /** How many frames came, and how many records pages held. */
  function CountCame(events: seq<Event>): nat {
    if events == [] then 0
    else
      var last := events[|events| - 1];
      CountCame(events[..|events| - 1]) +
      match last
      case Frame(_, _) => 1
      case Page(records) => |records|
      case _ => 0
  }

  function CountFrames(inbox: seq<Job>): nat {
    if inbox == [] then 0 else CountFrames(inbox[1..]) + if inbox[0].Deliver? then 1 else 0
  }

  /** What was routed, and what may still be by itself. */
  function CountDue(s: State): nat {
    |s.routed| + CountFrames(s.inbox) +
    match s.running
    case Replaying(_, _, next) => if next.Redeliver? then 1 else 0
    case Resyncing(_, _, next) => if next.Redeliver? then 1 else 0
    case _ => 0
  }

  lemma {:induction false} CountQueued(inbox: seq<Job>, job: Job)
    ensures CountFrames(inbox + [job]) == CountFrames(inbox) + if job.Deliver? then 1 else 0
  {
    if inbox == [] {
      assert [] + [job] == [job];
      assert CountFrames([job][1..]) == 0;
    } else {
      assert (inbox + [job])[1..] == inbox[1..] + [job];
      CountQueued(inbox[1..], job);
    }
  }

  lemma EndReplayRoutesOnce(s: State, kept: seq<Change>, next: Continuation)
    ensures var t := EndReplay(s, kept, next);
            |t.routed| <= |s.routed| + (if next.Redeliver? then 1 else 0) && t.inbox == s.inbox && t.running.Idle?
  {
  }

  lemma PageRoutesOnce(cfg: Config, s: State, records: seq<Record>)
    requires s.running.Replaying?
    ensures CountDue(ReplayPage(cfg, s, records)) <= CountDue(s) + |records|
  {
    hide ApplyAll, Notices, LastPerKey, EndReplay, CountFrames;
    var Replaying(from, kept, next) := s.running;
    var page := ApplyAll(s.cursor, ChangesOf(records));
    var moved := s.(cursor := page.cursor, passed := s.passed + page.passed,
                    routed := s.routed + Frames(LastPerKey(page.passed, cfg.readers)));
    PassedCame(s.cursor, ChangesOf(records));
    AtMostOneEach(page.passed, cfg.readers);
    EndReplayRoutesOnce(s, kept, next);
    EndReplayRoutesOnce(moved, kept + Notices(page.passed), next);
  }

  lemma {:induction false} AtMostOneEach(changes: seq<Change>, readers: set<string>)
    ensures |LastPerKey(changes, readers)| <= |changes|
  {
    if changes != [] {
      AtMostOneEach(changes[..|changes| - 1], readers);
    }
  }

  lemma TailRoutesOnce(cfg: Config, s: State, records: seq<Record>)
    requires s.running.ReadingTail?
    ensures CountDue(TailPage(cfg, s, records)) <= CountDue(s) + |records|
  {
    hide UpTo, ProducedSince, Notices, LastPerKey, CountFrames;
    var tail := UpTo(records, s.running.head);
    UpToIsShorter(records, s.running.head);
    AtMostOneEach(ChangesOf(ProducedSince(tail, s.running.began)), cfg.readers);
  }

  lemma {:induction false} UpToIsShorter(page: seq<Record>, head: int)
    ensures |UpTo(page, head)| <= |page|
  {
    if page != [] {
      UpToIsShorter(page[1..], head);
    }
  }

  lemma ProceedRoutesOnce(cfg: Config, s: State)
    ensures CountDue(ProceedStep(cfg, s)) <= CountDue(s)
  {
  }

  lemma ReceiveCounts(s: State, frame: Envelope, waited: int)
    ensures CountDue(Receive(s, frame, waited)) <= CountDue(s) + 1
  {
    hide CountFrames;
    CountQueued(s.inbox, Deliver(frame));
    if frame.Hello? {
      var first := FirstCatchUp(frame.head, frame.sentAt, waited);
      CountQueued(s.inbox, first);
      CountQueued(s.inbox + [first], Deliver(frame));
    }
  }

  lemma StepRoutesOnce(cfg: Config, s: State, e: Event)
    ensures CountDue(Step(cfg, s, e)) <= CountDue(s) + CountCame([e])
  {
    hide ReplayPage, TailPage, EndReplay, ProceedStep, Receive, CountFrames;
    assert [e][..0] == [];
    match e
    case Frame(frame, waited) => ReceiveCounts(s, frame, waited);
    case Proceed => ProceedRoutesOnce(cfg, s);
    case Page(records) =>
      if s.running.Replaying? {
        PageRoutesOnce(cfg, s, records);
      } else if s.running.ReadingTail? {
        TailRoutesOnce(cfg, s, records);
      }
    case Failed =>
      if s.running.Replaying? {
        EndReplayRoutesOnce(s, s.running.kept, s.running.next);
      }
    case Refreshed(ok) =>
      if s.running.Resyncing? {
        var Resyncing(head, kept, next) := s.running;
        var from := if s.cursor.None? then head else s.cursor.value;
        EndReplayRoutesOnce(s, kept, Finish);
        EndReplayRoutesOnce(s, kept, next);
        EndReplayRoutesOnce(s.(cursor := Some(head), jumps := s.jumps + [Jump(from, head)]), kept, next);
      }
    case Opened => CountQueued(s.inbox, CatchUp);
    case Polled => CountQueued(s.inbox, CatchUp);
    case Stable => CountQueued(s.inbox, CatchUp);
    case _ =>
  }

  /** Over every run no more is routed than came in: each frame once, and each record a page held once. */
  lemma {:induction false} NoMoreIsRoutedThanCame(cfg: Config, events: seq<Event>)
    ensures |Run(cfg, events).routed| <= CountDue(Run(cfg, events)) <= CountCame(events)
  {
    hide Step, CountDue;
    if events == [] {
      NothingIsDue();
    } else {
      var front, e := events[..|events| - 1], events[|events| - 1];
      NoMoreIsRoutedThanCame(cfg, front);
      StepRoutesOnce(cfg, Run(cfg, front), e);
      assert [e][..0] == [] && CountCame([]) == 0;
      RoutedIsDue(Run(cfg, events));
    }
  }

  lemma NothingIsDue()
    ensures CountDue(INITIAL) == 0
  {
  }

  lemma RoutedIsDue(s: State)
    ensures |s.routed| <= CountDue(s)
  {
    hide CountFrames;
  }
}
