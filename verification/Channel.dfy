/**
 The channel's inbox in the form the source has it: handlers over fields
 (`apps/portal/src/realtime/channel.ts`). Each handler is proved to make exactly
 the step of `Delivery`, so every theorem about runs is a theorem about it.
 */
module Channel {
  import opened Options
  import opened Envelopes
  import opened Stream
  import opened Router
  import opened Delivery
  import opened DeliveryInvariant

  ghost predicate Stored(stored: seq<Record>, n: int) {
    exists i :: 0 <= i < |stored| && stored[i].seqNo == n
  }

  /** The changes passed so far are a prefix, and the change after them leaves a hole. */
  ghost predicate StopsAtAHole(at: int, changes: seq<Change>, passed: seq<Change>) {
    && |passed| <= |changes| && passed == changes[..|passed|]
    && (|passed| < |changes| ==> changes[|passed|].seqNo > at + |passed| + 1)
  }

  ghost predicate Ahead(at: int, changes: seq<Change>) {
    Ascending(changes) && forall i :: 0 <= i < |changes| ==> changes[i].seqNo > at
  }

  lemma OneMoreStops(at: int, changes: seq<Change>, passed: seq<Change>)
    requires changes != [] && Ahead(at, changes) && StopsAtAHole(at, changes[..|changes| - 1], passed)
    requires forall i :: 0 <= i < |passed| ==> passed[i].seqNo == at + 1 + i
    ensures var c := changes[|changes| - 1];
            StopsAtAHole(at, changes, if c.seqNo == at + |passed| + 1 then passed + [c] else passed)
  {
    var front, c, j := changes[..|changes| - 1], changes[|changes| - 1], |passed|;
    assert changes == front + [c];
    if j == |front| {
      assert j > 0 ==> passed[j - 1] == changes[j - 1];
      assert c.seqNo >= at + j + 1;
    } else {
      assert front[j] == changes[j] && changes[j].seqNo < c.seqNo;
    }
  }

  /** Over ordered changes past the cursor, a page passes a prefix of itself and stops at the first hole. */
  lemma {:induction false} ApplyAllStopsAtAHole(at: int, changes: seq<Change>)
    requires Ahead(at, changes)
    ensures StopsAtAHole(at, changes, ApplyAll(Some(at), changes).passed)
  {
    hide ApplyAll, StopsAtAHole;
    if changes == [] {
      NothingApplied(at);
    } else {
      var front := changes[..|changes| - 1];
      ApplyAllStopsAtAHole(at, front);
      ApplyAllPasses(at, front);
      OneMoreApplied(at, changes);
      OneMoreStops(at, changes, ApplyAll(Some(at), front).passed);
    }
  }

  lemma NothingApplied(at: int)
    ensures StopsAtAHole(at, [], ApplyAll(Some(at), []).passed)
  {
  }

  lemma OneMoreApplied(at: int, changes: seq<Change>)
    requires changes != []
    ensures ApplyAll(Some(at), changes)
         == ApplyOne(ApplyAll(Some(at), changes[..|changes| - 1]), changes[|changes| - 1])
  {
  }

  lemma PageOf(stored: seq<Record>, at: int, limit: nat)
    requires Oldest1st(stored)
    ensures var page := ServerPage(stored, at, limit);
            Oldest1st(page) && forall i :: 0 <= i < |page| ==> page[i] in stored && page[i].seqNo > at
  {
    AfterIsTheRest(stored, at);
    var rest, page := After(stored, at), ServerPage(stored, at, limit);
    forall i | 0 <= i < |page|
      ensures page[i] in stored && page[i].seqNo > at
    {
      assert page[i] == rest[i] && rest[i] in rest;
    }
  }

  /** Where a page takes the cursor. */
  function ReachedFrom(from: int, page: seq<Record>): int {
    var cursor := ApplyAll(Some(from), ChangesOf(page)).cursor;
    if cursor.Some? then cursor.value else from
  }

  /** A page moves the cursor over stored positions only, by a prefix of itself up to a hole. */
  lemma PageMoves(stored: seq<Record>, at: int, limit: nat)
    requires Oldest1st(stored)
    ensures var page := ServerPage(stored, at, limit);
            var j := ReachedFrom(at, page) - at;
            && ApplyAll(Some(at), ChangesOf(page)).cursor == Some(at + j)
            && 0 <= j <= |page|
            && (forall i :: 0 <= i < j ==> page[i].seqNo == at + 1 + i)
            && (j < |page| ==> page[j].seqNo > at + j + 1)
            && (forall n :: at < n <= at + j ==> Stored(stored, n))
  {
    var page := ServerPage(stored, at, limit);
    var changes := ChangesOf(page);
    PageOf(stored, at, limit);
    ApplyAllPasses(at, changes);
    ApplyAllStopsAtAHole(at, changes);
    var passed := ApplyAll(Some(at), changes).passed;
    var j := |passed|;
    assert forall i :: 0 <= i < j ==> passed[i] == changes[i];
    forall n | at < n <= at + j
      ensures Stored(stored, n)
    {
      var r := page[n - at - 1];
      assert r.seqNo == n;
      var i :| 0 <= i < |stored| && stored[i] == r;
    }
  }

  /** One page of a fixed stream: where it takes the cursor, and what it proves about the stream. */
  lemma PageReaches(stored: seq<Record>, at: int, limit: nat)
    requires Oldest1st(stored) && limit > 0
    ensures var page := ServerPage(stored, at, limit);
            var reached := ReachedFrom(at, page);
            |page| < limit || reached == at ==> !Stored(stored, reached + 1)
  {
    var page := ServerPage(stored, at, limit);
    var j := ReachedFrom(at, page) - at;
    PageMoves(stored, at, limit);
    if Stored(stored, at + j + 1) && (|page| < limit || j == 0) {
      var i :| 0 <= i < |stored| && stored[i].seqNo == at + j + 1;
      StoredIsOnThePage(stored, at, limit, stored[i], j);
      PageOf(stored, at, limit);
    }
  }

  /** A stored record past the cursor is on a short page, and leads a full one when it follows at once. */
  lemma StoredIsOnThePage(stored: seq<Record>, at: int, limit: nat, r: Record, j: nat)
    requires Oldest1st(stored) && limit > 0 && r in stored && r.seqNo == at + j + 1
    requires |ServerPage(stored, at, limit)| < limit || j == 0
    ensures exists k :: 0 <= k <= j && k < |ServerPage(stored, at, limit)| && ServerPage(stored, at, limit)[k] == r
  {
    AfterIsTheRest(stored, at);
    var rest, page := After(stored, at), ServerPage(stored, at, limit);
    assert r in rest;
    var k :| 0 <= k < |rest| && rest[k] == r;
    PositionsGrow(rest, at, k);
    assert k < |page| && page[k] == r;
  }

  /** Between `after` and `head` every position is stored, and none past it. */
  ghost predicate Gapless(stored: seq<Record>, after: int, head: int) {
    && (forall n :: after < n <= head ==> Stored(stored, n))
    && (forall i :: 0 <= i < |stored| ==> stored[i].seqNo <= head)
  }

  /** A page of a gapless stream is full until the last, and moves the cursor by its length. */
  lemma GaplessPage(stored: seq<Record>, at: int, head: int, limit: nat)
    requires Oldest1st(stored) && limit > 0 && at <= head && Gapless(stored, at, head)
    ensures var page := ServerPage(stored, at, limit);
            && |page| == (if head - at < limit then head - at else limit)
            && ReachedFrom(at, page) == at + |page|
  {
    var rest, page := After(stored, at), ServerPage(stored, at, limit);
    GaplessRest(stored, at, head, head - at);
    PageMoves(stored, at, limit);
    assert forall i :: 0 <= i < |page| ==> page[i] == rest[i] && rest[i].seqNo == at + 1 + i;
  }

  lemma RestIsBounded(stored: seq<Record>, at: int, head: int)
    requires Oldest1st(stored) && at <= head && Gapless(stored, at, head)
    ensures |After(stored, at)| <= head - at
  {
    var rest := After(stored, at);
    AfterIsTheRest(stored, at);
    if rest != [] {
      PositionsGrow(rest, at, |rest| - 1);
      var r := rest[|rest| - 1];
      assert r in rest;
      var i :| 0 <= i < |stored| && stored[i] == r;
    }
  }

  /** The rest of a gapless stream is its positions one by one. */
  lemma {:induction false} GaplessRest(stored: seq<Record>, at: int, head: int, count: nat)
    requires Oldest1st(stored) && at <= head && Gapless(stored, at, head) && count <= head - at
    ensures count <= |After(stored, at)| <= head - at
    ensures forall i :: 0 <= i < count ==> After(stored, at)[i].seqNo == at + 1 + i
  {
    hide After, Oldest1st;
    RestIsBounded(stored, at, head);
    if count > 0 {
      GaplessRest(stored, at, head, count - 1);
      var rest := After(stored, at);
      AfterIsTheRest(stored, at);
      assert Stored(stored, at + count);
      var i :| 0 <= i < |stored| && stored[i].seqNo == at + count;
      assert stored[i] in rest;
      var k :| 0 <= k < |rest| && rest[k] == stored[i];
      PositionsGrow(rest, at, k);
      assert k == count - 1;
    }
  }

  lemma {:induction false} Quotient(pages: nat, limit: nat, rest: nat)
    requires rest < limit
    ensures (pages * limit + rest) / limit == pages
  {
    var total := pages * limit + rest;
    var q := total / limit;
    assert total == q * limit + total % limit;
    assert (pages - q) * limit == total % limit - rest;
    assert (q - pages) * limit == rest - total % limit;
    if q < pages {
      Scaled(pages - q, limit);
    } else if q > pages {
      Scaled(q - pages, limit);
    }
  }

  lemma Scaled(a: int, limit: nat)
    requires a >= 1
    ensures a * limit >= limit
  {
    assert a * limit == (a - 1) * limit + limit;
  }

  class Channel {
    const cfg: Config
    var cursor: Cursor
    var inbox: seq<Job>
    var running: Running
    var stopped: bool
    // What the channel handed to the router, to the notices and to the query cache.
    var routed: seq<Envelope>
    var told: seq<Change>
    var refreshes: nat
    // The cursor's history.
    ghost var base: Option<int>
    ghost var passed: seq<Change>
    ghost var caught: Option<Caught>
    ghost var jumps: seq<Jump>

    ghost function View(): State
      reads this
    {
      State(cursor, inbox, running, stopped, routed, told, refreshes, base, passed, caught, jumps)
    }

    constructor (cfg: Config)
      ensures View() == INITIAL && this.cfg == cfg
    {
      this.cfg := cfg;
      cursor, inbox, running, stopped := None, [], Idle, false;
      routed, told, refreshes := [], [], 0;
      base, passed, caught, jumps := None, [], None, [];
    }

    method Announce(notices: seq<Change>)
      modifies this`told
      ensures View() == Tell(old(View()), notices)
    {
      if !stopped && |notices| > 0 {
        told := told + notices;
      }
    }

    /** Applies one push; answers the position to replay after when it is ahead of the cursor. */
    method ApplyLive(c: Change) returns (gap: Option<int>)
      modifies this`cursor, this`routed, this`told, this`base, this`passed
      ensures (View(), gap) == ApplyPush(old(View()), c)
    {
      match Place(cursor, c.seqNo)
      case Seen => gap := None;
      case Gap(after) => gap := Some(after);
      case Next(next) =>
        routed := routed + [Changed(c)];
        base := if base.None? then Some(c.seqNo - 1) else base;
        passed := passed + [c];
        cursor := Some(next);
        gap := None;
        if IsNotice(c) {
          Announce([c]);
        }
    }

    method RouteAll(changes: seq<Change>)
      modifies this`routed
      ensures routed == old(routed) + Frames(changes)
    {
      for i := 0 to |changes|
        invariant routed == old(routed) + Frames(changes[..i])
      {
        assert changes[..i + 1] == changes[..i] + [changes[i]];
        assert Frames(changes[..i + 1]) == Frames(changes[..i]) + [Changed(changes[i])];
        routed := routed + [Changed(changes[i])];
      }
      assert changes[..|changes|] == changes;
    }

    method OnMessage(frame: Envelope, waited: int)
      modifies this`cursor, this`inbox, this`base
      ensures View() == Step(cfg, old(View()), Frame(frame, waited))
    {
      if stopped {
        return;
      }
      if frame.Hello? && cursor.None? {
        cursor, base := Some(frame.head), Some(frame.head);
        inbox := inbox + [FirstCatchUp(frame.head, frame.sentAt, waited)];
      }
      inbox := inbox + [Deliver(frame)];
    }

    method OnOpen()
      modifies this`inbox
      ensures View() == Step(cfg, old(View()), Opened)
    {
      if !stopped && cursor.Some? {
        inbox := inbox + [CatchUp];
      }
    }

    method OnPoll()
      modifies this`inbox
      ensures View() == Step(cfg, old(View()), Polled)
    {
      if !stopped {
        inbox := inbox + [CatchUp];
      }
    }

    method OnStable()
      modifies this`inbox
      ensures View() == Step(cfg, old(View()), Stable)
    {
      if !stopped && cursor.None? {
        inbox := inbox + [CatchUp];
      }
    }

    method RefreshAll()
      modifies this`running, this`refreshes
      ensures View() == StartRefresh(old(View()))
    {
      refreshes := refreshes + 1;
      running := Refreshing;
    }

    /** Takes the next job of the inbox up to its first await. */
    method RunNext()
      modifies this
      ensures View() == Step(cfg, old(View()), Proceed)
    {
      if !running.Idle? || |inbox| == 0 {
        return;
      }
      var job := inbox[0];
      inbox := inbox[1..];
      if stopped {
        return;
      }
      match job
      case CatchUp =>
        if cursor.None? {
          RefreshAll();
        } else {
          running := Replaying(cursor.value, [], Finish);
        }
      case FirstCatchUp(head, sentAt, waited) =>
        if sentAt.None? {
          RefreshAll();
        } else if head > 0 {
          running := ReadingTail(head, ReadsBegan(sentAt.value, waited));
        }
      case Deliver(frame) =>
        match frame {
          case Pong(head) =>
            var after := Behind(cursor, head);
            if after.Some? {
              running := Replaying(after.value, [], Finish);
            }
          case Changed(c) =>
            var gap := ApplyLive(c);
            if gap.Some? {
              running := Replaying(gap.value, [], Redeliver(c));
            }
          case _ => routed := routed + [frame];
        }
    }

    method FinishReplay(kept: seq<Change>, next: Continuation)
      modifies this
      ensures View() == EndReplay(old(View()), kept, next)
    {
      running := Idle;
      Announce(kept);
      if next.Finish? || stopped {
        return;
      }
      var gap := ApplyLive(next.change);
      if gap.Some? {
        routed := routed + [Changed(next.change)];
      }
    }

    /** A page's records in turn: each moves the cursor or not; the last of each key and the notices are gathered. */
    method ApplyRecords(records: seq<Record>) returns (last: seq<Entry>, notices: seq<Change>)
      modifies this`cursor, this`passed
      ensures var page := ApplyAll(old(cursor), ChangesOf(records));
              && cursor == page.cursor && passed == old(passed) + page.passed
              && last == Collect(page.passed, cfg.readers) && notices == Notices(page.passed)
    {
      hide ApplyAll, Collect, Notices, ReplayKey, SetEntry, IsNotice;
      last, notices := [], [];
      ghost var changes := ChangesOf(records);
      ghost var applied: seq<Change> := [];
      NothingGatheredYet(cursor, cfg.readers);
      for i := 0 to |records|
        invariant Applied(cursor, applied) == ApplyAll(old(cursor), changes[..i])
        invariant passed == old(passed)
        invariant last == Collect(applied, cfg.readers) && notices == Notices(applied)
      {
        var c := ChangeOf(records[i]);
        GatheredOneMore(old(cursor), changes, i, applied, cfg.readers);
        match Place(cursor, c.seqNo)
        case Next(reached) =>
          applied := applied + [c];
          last := SetEntry(last, ReplayKey(c, cfg.readers), c);
          cursor := Some(reached);
          if IsNotice(c) {
            notices := notices + [c];
          }
        case _ =>
      }
      assert changes[..|records|] == changes;
      passed := passed + applied;
    }

    /** A replay's page: its records, one route per key gathered, and whether another page follows. */
    method OnReplayPage(records: seq<Record>)
      requires running.Replaying?
      modifies this
      ensures View() == Step(cfg, old(View()), Page(records))
    {
      hide ApplyAll, Collect, Notices, EndReplay;
      var Replaying(from, kept, next) := running;
      if stopped {
        FinishReplay(kept, next);
        return;
      }
      var last, notices := ApplyRecords(records);
      RouteAll(Values(last));
      if IsLastPage(|records|, cfg.pageSize) || cursor.None? || cursor.value <= from {
        FinishReplay(kept + notices, next);
      } else {
        running := Replaying(cursor.value, kept + notices, next);
      }
    }

    /** What the tail's recent records route and tell: the last of each key, and the notices. */
    method Gather(records: seq<Record>) returns (last: seq<Entry>, notices: seq<Change>)
      ensures last == Collect(ChangesOf(records), cfg.readers) && notices == Notices(ChangesOf(records))
    {
      last, notices := [], [];
      ghost var changes := ChangesOf(records);
      for i := 0 to |records|
        invariant last == Collect(changes[..i], cfg.readers)
        invariant notices == Notices(changes[..i])
      {
        var c := ChangeOf(records[i]);
        assert changes[..i + 1][..i] == changes[..i];
        last := SetEntry(last, ReplayKey(c, cfg.readers), c);
        if IsNotice(c) {
          notices := notices + [c];
        }
      }
      assert changes[..|records|] == changes;
    }

    /** The first catch-up's page. */
    method OnTailPage(records: seq<Record>)
      requires running.ReadingTail?
      modifies this
      ensures View() == Step(cfg, old(View()), Page(records))
    {
      hide Collect, Notices, TailSince;
      if stopped {
        running := Idle;
        return;
      }
      var recent := TailSince(UpTo(records, running.head), TailStart(running.head, cfg.pageSize), running.began);
      if recent.None? {
        RefreshAll();
        return;
      }
      running := Idle;
      var last, kept := Gather(recent.value);
      RouteAll(Values(last));
      caught := Some(Caught(|told|, kept));
      Announce(kept);
    }

    method OnFetchFailed()
      modifies this
      ensures View() == Step(cfg, old(View()), Failed)
    {
      if running.Replaying? {
        FinishReplay(running.kept, running.next);
      } else if running.ReadingTail? {
        RefreshAll();
      }
    }

    method OnTruncated(head: int)
      modifies this
      ensures View() == Step(cfg, old(View()), Truncated(head))
    {
      if running.Replaying? {
        refreshes := refreshes + 1;
        running := Resyncing(head, running.kept, running.next);
      } else if running.ReadingTail? {
        RefreshAll();
      }
    }

    method OnRefreshed(ok: bool)
      modifies this
      ensures View() == Step(cfg, old(View()), Refreshed(ok))
    {
      match running
      case Refreshing => running := Idle;
      case Resyncing(head, kept, next) =>
        if !ok {
          FinishReplay(kept, Finish);
          return;
        }
        if !stopped && (cursor.None? || head > cursor.value) {
          jumps := jumps + [Jump(if cursor.None? then head else cursor.value, head)];
          cursor := Some(head);
        }
        FinishReplay(kept, next);
      case _ =>
    }

    method OnStop()
      modifies this`stopped
      ensures View() == Step(cfg, old(View()), Event.Stop)
    {
      stopped := true;
    }

    /**
     A whole replay against a stream that stands still: page after page until none
     follows. It ends, at the last position before the first hole. `head` is any
     position; where the stream is gapless up to it, the replay ends there and the
     number of fetches is exact.
     */
    method ReplayToTheEnd(stored: seq<Record>, ghost head: int) returns (fetches: nat, reached: int)
      requires running.Replaying? && !stopped && cursor == Some(running.from)
      requires Oldest1st(stored) && cfg.pageSize > 0
      modifies this
      ensures running.Idle? && old(running.from) <= reached
      ensures forall n :: old(running.from) < n <= reached ==> Stored(stored, n)
      ensures !Stored(stored, reached + 1)
      ensures cursor == Some(Settled(reached, old(running.next)))
      ensures old(running.from) <= head && Gapless(stored, old(running.from), head) ==>
                reached == head && fetches == (head - old(running.from)) / cfg.pageSize + 1
    {
      hide Stored, Gapless, Oldest1st, ServerPage, ReachedFrom, ReplayPage, Settled;
      ghost var after, next := running.from, running.next;
      ghost var top := if stored == [] || stored[|stored| - 1].seqNo < after then after else stored[|stored| - 1].seqNo;
      ghost var gapless := after <= head && Gapless(stored, after, head);
      fetches, reached := 0, running.from;
      while running.Replaying?
        invariant !stopped && after <= reached <= top
        invariant running.Replaying? ==> cursor == Some(reached) && running.from == reached && running.next == next
        invariant !running.Replaying? ==>
                    running.Idle? && !Stored(stored, reached + 1) && cursor == Some(Settled(reached, next))
        invariant forall n :: after < n <= reached ==> Stored(stored, n)
        invariant gapless ==> reached <= head
        invariant gapless && running.Replaying? ==> fetches * cfg.pageSize == reached - after
        invariant gapless && !running.Replaying? ==>
                    reached == head && fetches == (head - after) / cfg.pageSize + 1
        decreases running.Replaying?, top - reached
      {
        ghost var from := reached;
        var page := ServerPage(stored, reached, cfg.pageSize);
        PageMoves(stored, from, cfg.pageSize);
        PageReaches(stored, from, cfg.pageSize);
        StoredIsBelow(stored, ReachedFrom(from, page), from, top);
        if gapless {
          CountPages(stored, after, from, head, cfg.pageSize, fetches);
        }
        ReplayPageOutcome(cfg, View(), page);
        reached := ReachedFrom(reached, page);
        OnReplayPage(page);
        fetches := fetches + 1;
      }
    }

    /**
     Whatever tells a live, idle channel to look (a reconnect, a poll, or a pong with a
     head past the cursor), it ends with the cursor at the last position before the
     first hole of the stream.
     */
    method CatchUpToTheEnd(stored: seq<Record>, told: Event, ghost head: int) returns (fetches: nat, reached: int)
      requires running.Idle? && inbox == [] && !stopped && cursor.Some?
      requires IsCue(told, cursor.value)
      requires Oldest1st(stored) && cfg.pageSize > 0
      modifies this
      ensures running.Idle? && cursor == Some(reached) && old(cursor.value) <= reached
      ensures forall n :: old(cursor.value) < n <= reached ==> Stored(stored, n)
      ensures !Stored(stored, reached + 1)
      ensures old(cursor.value) <= head && Gapless(stored, old(cursor.value), head) ==>
                reached == head && fetches == (head - old(cursor.value)) / cfg.pageSize + 1
    {
      hide Gapless, Stored, Oldest1st, ServerPage, ApplyAll, EndReplay, ReplayPage, TailPage, ApplyPush;
      if told.Opened? {
        OnOpen();
      } else if told.Polled? {
        OnPoll();
      } else {
        OnMessage(told.frame, told.waited);
      }
      RunNext();
      fetches, reached := ReplayToTheEnd(stored, head);
    }
  }

  lemma NothingGatheredYet(cursor: Cursor, readers: set<string>)
    ensures ApplyAll(cursor, []) == Applied(cursor, []) && Collect([], readers) == [] && Notices([]) == []
  {
  }

  /** One record more: the step it makes, and what it adds to what was gathered. */
  lemma GatheredOneMore(cursor: Cursor, changes: seq<Change>, i: nat, applied: seq<Change>, readers: set<string>)
    requires i < |changes|
    ensures ApplyAll(cursor, changes[..i + 1]) == ApplyOne(ApplyAll(cursor, changes[..i]), changes[i])
    ensures Collect(applied + [changes[i]], readers)
         == SetEntry(Collect(applied, readers), ReplayKey(changes[i], readers), changes[i])
    ensures Notices(applied + [changes[i]])
         == Notices(applied) + if IsNotice(changes[i]) then [changes[i]] else []
  {
    assert changes[..i + 1][..i] == changes[..i];
    assert (applied + [changes[i]])[..|applied|] == applied;
  }

  /** What has a channel with a cursor look for what it missed. */
  predicate IsCue(told: Event, cursor: int) {
    told.Opened? || told.Polled? || (told.Frame? && told.frame.Pong? && told.frame.head > cursor)
  }

  /** Where the cursor stands once the push that began a replay was applied again. */
  function Settled(reached: int, next: Continuation): int {
    if next.Redeliver? && next.change.seqNo == reached + 1 then reached + 1 else reached
  }

  lemma EndReplayOutcome(s: State, kept: seq<Change>, next: Continuation)
    requires !s.stopped && s.cursor.Some?
    ensures var t := EndReplay(s, kept, next);
            !t.stopped && t.running.Idle? && t.cursor == Some(Settled(s.cursor.value, next))
  {
  }

  /** A live replay's page moves the cursor, and either another page follows from there or the replay ends. */
  lemma ReplayPageOutcome(cfg: Config, s: State, records: seq<Record>)
    requires s.running.Replaying? && !s.stopped && s.cursor == Some(s.running.from)
    ensures var Replaying(from, _, next) := s.running;
            var t, reached := ReplayPage(cfg, s, records), ReachedFrom(from, records);
            && !t.stopped
            && (if |records| < cfg.pageSize || reached <= from
                then t.running.Idle? && t.cursor == Some(Settled(reached, next))
                else t.running.Replaying? && t.running.from == reached && t.running.next == next
                     && t.cursor == Some(reached))
  {
    var Replaying(from, kept, next) := s.running;
    var page := ApplyAll(s.cursor, ChangesOf(records));
    ApplyAllPasses(from, ChangesOf(records));
    var moved := s.(cursor := page.cursor, passed := s.passed + page.passed,
                    routed := s.routed + Frames(LastPerKey(page.passed, cfg.readers)));
    EndReplayOutcome(moved, kept + Notices(page.passed), next);
  }

  lemma StoredIsBelow(stored: seq<Record>, to: int, from: int, top: int)
    requires Oldest1st(stored) && from <= to && from <= top
    requires stored != [] ==> stored[|stored| - 1].seqNo <= top
    requires forall n :: from < n <= to ==> Stored(stored, n)
    ensures to <= top
  {
    if from < to {
      assert Stored(stored, to);
      var i :| 0 <= i < |stored| && stored[i].seqNo == to;
      assert stored[i].seqNo <= stored[|stored| - 1].seqNo;
    }
  }

  /** On a gapless stream every page but the last moves the cursor a whole page. */
  lemma CountPages(stored: seq<Record>, after: int, from: int, head: int, limit: nat, fetches: nat)
    requires Oldest1st(stored) && limit > 0 && after <= from <= head && Gapless(stored, after, head)
    requires fetches * limit == from - after
    ensures var page := ServerPage(stored, from, limit);
            && ReachedFrom(from, page) == from + |page| <= head
            && (|page| < limit ==> from + |page| == head && (head - after) / limit == fetches)
            && (|page| >= limit ==> |page| == limit && (fetches + 1) * limit == from + |page| - after)
  {
    GaplessPage(stored, from, head, limit);
    if head - from < limit {
      Quotient(fetches, limit, head - from);
    }
  }
}
