/**
 The channel's inbox as a state machine (`apps/portal/src/realtime/channel.ts`):
 one job at a time, cut at every await. A step is what runs between two awaits,
 so frames, timers and the stop interleave with a job exactly at its awaits.
 Besides what the source keeps, a state carries what the channel handed out
 (`routed`, `told`, `refreshes`) and the history the proofs speak of.
 */
module Delivery {
  import opened Options
  import opened Envelopes
  import opened Stream
  import opened Router

  datatype Config = Config(pageSize: nat, readers: set<string>)

  datatype Job =
    | Deliver(frame: Envelope)
    | CatchUp
    | FirstCatchUp(head: int, sentAt: Option<int>, waited: int)

  /** What follows a replay: nothing, or the push that found the gap, applied again. */
  datatype Continuation = Finish | Redeliver(change: Change)

  /** Where the running job awaits; `kept` are the notices a replay holds for its end. */
  datatype Running =
    | Idle
    | Replaying(from: int, kept: seq<Change>, next: Continuation)
    | Resyncing(head: int, kept: seq<Change>, next: Continuation)
    | ReadingTail(head: int, began: int)
    | Refreshing

  /** The first catch-up's notices, and how many notices had been told before them. */
  datatype Caught = Caught(at: nat, notices: seq<Change>)

  /** A move of the cursor past a trimmed stretch, made once everything was read afresh. */
  datatype Jump = Jump(from: int, to: int)

  datatype State = State(
    cursor: Cursor, inbox: seq<Job>, running: Running, stopped: bool,
    routed: seq<Envelope>, told: seq<Change>, refreshes: nat,
    base: Option<int>, passed: seq<Change>, caught: Option<Caught>, jumps: seq<Jump>)

  datatype Event =
    | Frame(frame: Envelope, waited: int)
    | Opened
    | Polled
    | Stable
    | Proceed
    | Page(records: seq<Record>)
    | Failed
    | Truncated(head: int)
    | Refreshed(ok: bool)
    | Stop

  const INITIAL := State(None, [], Idle, false, [], [], 0, None, [], None, [])

  // ------------------------------------------------------------ applying records

  datatype Applied = Applied(cursor: Cursor, passed: seq<Change>)

  function ApplyOne(a: Applied, c: Change): Applied {
    match Place(a.cursor, c.seqNo)
    case Next(cursor) => Applied(Some(cursor), a.passed + [c])
    case Seen => a
    case Gap(_) => a
  }

  /** The changes of a page that move the cursor, each in its turn. */
  function ApplyAll(cursor: Cursor, changes: seq<Change>): Applied {
    if changes == [] then Applied(cursor, [])
    else ApplyOne(ApplyAll(cursor, changes[..|changes| - 1]), changes[|changes| - 1])
  }

  function Frames(changes: seq<Change>): (fs: seq<Envelope>)
    ensures |fs| == |changes|
    ensures forall i :: 0 <= i < |fs| ==> fs[i] == Changed(changes[i])
  {
    seq(|changes|, i requires 0 <= i < |changes| => Changed(changes[i]))
  }

  // ------------------------------------------------------------ the steps

  function Enqueue(s: State, job: Job): State {
    s.(inbox := s.inbox + [job])
  }

  function Tell(s: State, notices: seq<Change>): State {
    if s.stopped then s else s.(told := s.told + notices)
  }

  /** Applies one push by itself: routed and told at once; a gap answers where to replay from. */
  function ApplyPush(s: State, c: Change): (State, Option<int>) {
    match Place(s.cursor, c.seqNo)
    case Seen => (s, None)
    case Gap(after) => (s, Some(after))
    case Next(cursor) =>
      var moved := s.(cursor := Some(cursor), routed := s.routed + [Changed(c)], passed := s.passed + [c],
                      base := if s.base.None? then Some(c.seqNo - 1) else s.base);
      (if IsNotice(c) then Tell(moved, [c]) else moved, None)
  }

  /** A replay ends, however it ends: its notices are told, and the push that began it is applied again. */
  function EndReplay(s: State, kept: seq<Change>, next: Continuation): State {
    var ended := Tell(s.(running := Idle), kept);
    if next.Finish? || ended.stopped then ended
    else
      var (applied, gap) := ApplyPush(ended, next.change);
      if gap.None? then applied else ended.(routed := ended.routed + [Changed(next.change)])
  }

  function Receive(s: State, frame: Envelope, waited: int): State {
    if s.stopped then s
    else if frame.Hello? && s.cursor.None? then
      Enqueue(Enqueue(s.(cursor := Some(frame.head), base := Some(frame.head)),
                      FirstCatchUp(frame.head, frame.sentAt, waited)), Deliver(frame))
    else Enqueue(s, Deliver(frame))
  }

  function StartRefresh(s: State): State {
    s.(running := Refreshing, refreshes := s.refreshes + 1)
  }

  function StartReplay(s: State, after: int, next: Continuation): State {
    s.(running := Replaying(after, [], next))
  }

  /** Takes the inbox's next job up to its first await. */
  function Start(cfg: Config, s: State, job: Job): State {
    match job
    case CatchUp =>
      if s.cursor.None? then StartRefresh(s) else StartReplay(s, s.cursor.value, Finish)
    case FirstCatchUp(head, sentAt, waited) =>
      if sentAt.None? then StartRefresh(s)
      else if head <= 0 then s
      else s.(running := ReadingTail(head, ReadsBegan(sentAt.value, waited)))
    case Deliver(frame) =>
      match frame {
        case Pong(head) =>
          var after := Behind(s.cursor, head);
          if after.Some? then StartReplay(s, after.value, Finish) else s
        case Changed(c) =>
          var (applied, gap) := ApplyPush(s, c);
          if gap.Some? then StartReplay(s, gap.value, Redeliver(c)) else applied
        case _ => s.(routed := s.routed + [frame])
      }
  }

  function ProceedStep(cfg: Config, s: State): State {
    if !s.running.Idle? || s.inbox == [] then s
    else
      var taken := s.(inbox := s.inbox[1..]);
      if s.stopped then taken else Start(cfg, taken, s.inbox[0])
  }

  /** A replay's page: every record moves the cursor in its turn, and the last of each key is routed. */
  function ReplayPage(cfg: Config, s: State, records: seq<Record>): State
    requires s.running.Replaying?
  {
    var Replaying(from, kept, next) := s.running;
    if s.stopped then EndReplay(s, kept, next)
    else
      var page := ApplyAll(s.cursor, ChangesOf(records));
      var told := kept + Notices(page.passed);
      var moved := s.(cursor := page.cursor, passed := s.passed + page.passed,
                      routed := s.routed + Frames(LastPerKey(page.passed, cfg.readers)));
      if IsLastPage(|records|, cfg.pageSize) || page.cursor.None? || page.cursor.value <= from
      then EndReplay(moved, told, next)
      else moved.(running := Replaying(page.cursor.value, told, next))
  }

  /** The first catch-up's page: what was produced since the page began reading, or everything afresh. */
  function TailPage(cfg: Config, s: State, records: seq<Record>): State
    requires s.running.ReadingTail?
  {
    var ReadingTail(head, began) := s.running;
    if s.stopped then s.(running := Idle)
    else
      var recent := TailSince(UpTo(records, head), TailStart(head, cfg.pageSize), began);
      if recent.None? then StartRefresh(s)
      else
        var changes := ChangesOf(recent.value);
        Tell(s.(running := Idle, routed := s.routed + Frames(LastPerKey(changes, cfg.readers)),
                caught := Some(Caught(|s.told|, Notices(changes)))), Notices(changes))
  }

  function RefreshedStep(s: State, ok: bool): State {
    match s.running
    case Refreshing => s.(running := Idle)
    case Resyncing(head, kept, next) =>
      // A refresh that fails leaves the job by its exception: only the notices go out.
      if !ok then EndReplay(s, kept, Finish)
      else if s.stopped then EndReplay(s, kept, next)
      else if s.cursor.None? || head > s.cursor.value then
        var from := if s.cursor.None? then head else s.cursor.value;
        EndReplay(s.(cursor := Some(head), jumps := s.jumps + [Jump(from, head)]), kept, next)
      else EndReplay(s, kept, next)
    case _ => s
  }

  function Step(cfg: Config, s: State, e: Event): State {
    match e
    case Frame(frame, waited) => Receive(s, frame, waited)
    case Opened => if s.stopped || s.cursor.None? then s else Enqueue(s, CatchUp)
    case Polled => if s.stopped then s else Enqueue(s, CatchUp)
    case Stable => if s.stopped || s.cursor.Some? then s else Enqueue(s, CatchUp)
    case Proceed => ProceedStep(cfg, s)
    case Page(records) =>
      if s.running.Replaying? then ReplayPage(cfg, s, records)
      else if s.running.ReadingTail? then TailPage(cfg, s, records)
      else s
    case Failed =>
      if s.running.Replaying? then EndReplay(s, s.running.kept, s.running.next)
      else if s.running.ReadingTail? then StartRefresh(s)
      else s
    case Truncated(head) =>
      if s.running.Replaying?
      then s.(running := Resyncing(head, s.running.kept, s.running.next), refreshes := s.refreshes + 1)
      else if s.running.ReadingTail? then StartRefresh(s)
      else s
    case Refreshed(ok) => RefreshedStep(s, ok)
    case Stop => s.(stopped := true)
  }

  /** The state after some events, from a channel just opened. */
  function Run(cfg: Config, events: seq<Event>): State {
    if events == [] then INITIAL
    else Step(cfg, Run(cfg, events[..|events| - 1]), events[|events| - 1])
  }

  /** The server's one promise the proofs need: the tail the first catch-up reads is in stream order. */
  ghost predicate TailsInOrder(cfg: Config, events: seq<Event>) {
    events != [] ==>
      var before, e := events[..|events| - 1], events[|events| - 1];
      && TailsInOrder(cfg, before)
      && (e.Page? && Run(cfg, before).running.ReadingTail? ==> Oldest1st(e.records))
  }
}
