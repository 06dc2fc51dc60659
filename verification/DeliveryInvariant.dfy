/** What every step of the channel's inbox keeps. */
module DeliveryInvariant {
  import opened Options
  import opened Envelopes
  import opened Stream
  import opened Router
  import opened Delivery

  function Kept(running: Running): seq<Change> {
    match running
    case Replaying(_, kept, _) => kept
    case Resyncing(_, kept, _) => kept
    case _ => []
  }

  function Block(caught: Option<Caught>): seq<Change> {
    if caught.Some? then caught.value.notices else []
  }

  /** Notices passed by the cursor, with the first catch-up's notices where they were told among them. */
  function Weave(ns: seq<Change>, caught: Option<Caught>): seq<Change> {
    if caught.None? then ns
    else if caught.value.at > |ns| then ns + caught.value.notices
    else ns[..caught.value.at] + caught.value.notices + ns[caught.value.at..]
  }

  /** With no cursor nothing has been passed, and nothing but a refresh can be under way. */
  ghost predicate CursorShape(s: State) {
    && (s.cursor.None? <==> s.base.None?)
    && (s.cursor.None? ==>
          && s.passed == [] && s.told == [] && s.caught.None? && s.jumps == []
          && (s.running.Idle? || s.running.Refreshing?))
    && (s.cursor.Some? ==> s.base.value <= s.cursor.value)
    && (s.running.Replaying? ==> s.cursor == Some(s.running.from))
  }

  /** The first catch-up happens at most once, about the position the cursor started from. */
  ghost predicate OneFirstCatchUp(s: State) {
    && (s.running.ReadingTail? ==> s.caught.None? && s.base == Some(s.running.head))
    && (forall i :: 0 <= i < |s.inbox| && s.inbox[i].FirstCatchUp? ==>
          && s.caught.None? && !s.running.ReadingTail? && s.base == Some(s.inbox[i].head)
          && forall j :: 0 <= j < |s.inbox| && s.inbox[j].FirstCatchUp? ==> i == j)
  }

  /** The cursor's own path: every change it stepped on, in order, after where it started. */
  ghost predicate Path(s: State) {
    && Ascending(s.passed)
    && (forall c :: c in s.passed ==> s.base.Some? && s.cursor.Some? && s.base.value < c.seqNo <= s.cursor.value)
    && Ascending(Block(s.caught))
    && (forall c :: c in Block(s.caught) ==> s.base.Some? && c.seqNo <= s.base.value)
  }

  /** What was told is what was passed, woven with the first catch-up; a live replay holds the rest. */
  ghost predicate Telling(s: State) {
    var ns := Notices(s.passed);
    var m := |s.told| - |Block(s.caught)|;
    && 0 <= m <= |ns|
    && (s.caught.Some? ==> s.caught.value.at <= m)
    && s.told == Weave(ns[..m], s.caught)
    && (!s.stopped ==> ns[m..] == Kept(s.running))
  }

  ghost predicate PassedAt(s: State, n: int) {
    exists i :: 0 <= i < |s.passed| && s.passed[i].seqNo == n
  }

  ghost predicate JumpedOver(s: State, n: int) {
    exists i :: 0 <= i < |s.jumps| && s.jumps[i].from < n <= s.jumps[i].to
  }

  /** Some push of the same key, at or after this one in the stream, was routed. */
  ghost predicate Covered(readers: set<string>, routed: seq<Envelope>, c: Change) {
    exists i :: 0 <= i < |routed| && routed[i].Changed?
                && ReplayKey(routed[i].change, readers) == ReplayKey(c, readers)
                && c.seqNo <= routed[i].change.seqNo
  }

  ghost predicate Accounted(cfg: Config, s: State) {
    && (forall n :: s.cursor.Some? && s.base.Some? && s.base.value < n <= s.cursor.value ==>
          PassedAt(s, n) || JumpedOver(s, n))
    && (forall c :: c in s.passed ==> Covered(cfg.readers, s.routed, c))
  }

  ghost predicate Invariant(cfg: Config, s: State) {
    CursorShape(s) && OneFirstCatchUp(s) && Path(s) && Telling(s) && Accounted(cfg, s)
  }

  // ------------------------------------------------------------ small pieces

  /** From a cursor, a page passes exactly the run of positions that follows it. */
  lemma {:induction false} ApplyAllPasses(at: int, changes: seq<Change>)
    ensures var a := ApplyAll(Some(at), changes);
            && a.cursor == Some(at + |a.passed|)
            && (forall i :: 0 <= i < |a.passed| ==> a.passed[i].seqNo == at + 1 + i)
            && (forall c :: c in a.passed ==> c in changes)
  {
    if changes != [] {
      ApplyAllPasses(at, changes[..|changes| - 1]);
    }
  }

  lemma CoveredGrows(readers: set<string>, routed: seq<Envelope>, more: seq<Envelope>, c: Change)
    requires Covered(readers, routed, c)
    ensures Covered(readers, routed + more, c)
  {
    var i :| 0 <= i < |routed| && routed[i].Changed?
             && ReplayKey(routed[i].change, readers) == ReplayKey(c, readers)
             && c.seqNo <= routed[i].change.seqNo;
    assert (routed + more)[i] == routed[i];
  }

  lemma CoveredByPage(readers: set<string>, routed: seq<Envelope>, passed: seq<Change>, c: Change)
    requires Ascending(passed) && c in passed
    ensures Covered(readers, routed + Frames(LastPerKey(passed, readers)), c)
  {
    var i :| 0 <= i < |passed| && passed[i] == c;
    LastPerKeyCovers(passed, readers, i);
    var kept := LastPerKey(passed, readers);
    var r :| r in kept && ReplayKey(r, readers) == ReplayKey(c, readers) && c.seqNo <= r.seqNo;
    var k :| 0 <= k < |kept| && kept[k] == r;
    assert (routed + Frames(kept))[|routed| + k] == Changed(r);
  }

  /** Telling more at the end extends the woven sequence at its end. */
  lemma WeaveExtends(ns: seq<Change>, more: seq<Change>, caught: Option<Caught>)
    requires caught.Some? ==> caught.value.at <= |ns|
    ensures Weave(ns + more, caught) == Weave(ns, caught) + more
  {
    if caught.Some? {
      var at := caught.value.at;
      assert (ns + more)[..at] == ns[..at];
      assert (ns + more)[at..] == ns[at..] + more;
    }
  }

  // ------------------------------------------------------------ passing a run of changes

  /** A state whose cursor stepped over `more`, holding their notices after those it held. */
  ghost predicate Advances(cfg: Config, s: State, t: State, more: seq<Change>) {
    && s.cursor.Some? && t.cursor == Some(s.cursor.value + |more|)
    && (forall i :: 0 <= i < |more| ==> more[i].seqNo == s.cursor.value + 1 + i)
    && t.passed == s.passed + more
    && t.base == s.base && t.caught == s.caught && t.jumps == s.jumps
  }

  lemma AdvanceKeepsPath(cfg: Config, s: State, t: State, more: seq<Change>)
    requires CursorShape(s) && Path(s) && Advances(cfg, s, t, more)
    ensures Path(t)
  {
    forall i, j | 0 <= i < j < |t.passed|
      ensures t.passed[i].seqNo < t.passed[j].seqNo
    {
      if i < |s.passed| <= j {
        assert s.passed[i] in s.passed;
      }
    }
    forall c | c in t.passed
      ensures t.base.value < c.seqNo <= t.cursor.value
    {
      if c !in s.passed {
        assert c in more;
      }
    }
  }

  lemma AdvanceKeepsAccounts(cfg: Config, s: State, t: State, more: seq<Change>, routed: seq<Envelope>)
    requires CursorShape(s) && Accounted(cfg, s) && Advances(cfg, s, t, more)
    requires t.routed == s.routed + routed
    requires forall c :: c in more ==> Covered(cfg.readers, t.routed, c)
    ensures Accounted(cfg, t)
  {
    forall n | t.base.value < n <= t.cursor.value
      ensures PassedAt(t, n) || JumpedOver(t, n)
    {
      if n <= s.cursor.value {
        if PassedAt(s, n) {
          var i :| 0 <= i < |s.passed| && s.passed[i].seqNo == n;
          assert t.passed[i].seqNo == n;
        }
      } else {
        var i := n - s.cursor.value - 1;
        assert t.passed[|s.passed| + i] == more[i];
      }
    }
    forall c | c in t.passed
      ensures Covered(cfg.readers, t.routed, c)
    {
      if c in s.passed {
        CoveredGrows(cfg.readers, s.routed, routed, c);
      }
    }
  }

  lemma RoutingKeepsAccounts(cfg: Config, s: State, t: State, routed: seq<Envelope>)
    requires Accounted(cfg, s)
    requires t.routed == s.routed + routed
    requires t.passed == s.passed && t.cursor == s.cursor && t.base == s.base && t.jumps == s.jumps
    ensures Accounted(cfg, t)
  {
    forall n | t.cursor.Some? && t.base.Some? && t.base.value < n <= t.cursor.value
      ensures PassedAt(t, n) || JumpedOver(t, n)
    {
      assert PassedAt(s, n) || JumpedOver(s, n);
    }
    forall c | c in t.passed
      ensures Covered(cfg.readers, t.routed, c)
    {
      CoveredGrows(cfg.readers, s.routed, routed, c);
    }
  }

  // ------------------------------------------------------------ the steps, one by one

  lemma OneNotice(c: Change)
    ensures Notices([c]) == if IsNotice(c) then [c] else []
  {
    assert Notices([c]) == Notices([]) + (if IsNotice(c) then [c] else []);
  }

  /** The first push of a channel with no cursor. */
  lemma FirstPushIsAccounted(cfg: Config, s: State, c: Change)
    requires s.cursor.None? && s.base.None? && s.passed == []
    ensures Accounted(cfg, ApplyPush(s, c).0)
  {
    var t := ApplyPush(s, c).0;
    assert t.passed == [c] && t.passed[0].seqNo == c.seqNo;
    assert PassedAt(t, c.seqNo);
    assert t.routed[|s.routed|] == Changed(c);
    assert Covered(cfg.readers, t.routed, c);
  }

  lemma FirstPushIsTold(s: State, c: Change)
    requires s.cursor.None? && s.passed == [] && s.told == [] && s.caught.None?
    requires !s.stopped && s.running.Idle?
    ensures Telling(ApplyPush(s, c).0)
  {
    hide Notices;
    OneNotice(c);
    var t := ApplyPush(s, c).0;
    assert t.passed == [c];
    var ns := Notices([c]);
    assert t.told == ns && ns[..|ns|] == ns && ns[|ns|..] == [];
  }

  lemma FirstPushKeeps(cfg: Config, s: State, c: Change)
    requires Invariant(cfg, s) && s.running.Idle? && !s.stopped && s.cursor.None?
    ensures Invariant(cfg, ApplyPush(s, c).0)
  {
    hide Accounted, Telling;
    assert ApplyPush(s, c).0.passed == [c];
    FirstPushIsTold(s, c);
    FirstPushIsAccounted(cfg, s, c);
  }

  /** The next push in turn: routed, so covered, and stepped on by the cursor. */
  lemma NextPushAdvances(cfg: Config, s: State, c: Change)
    requires CursorShape(s) && Path(s) && Accounted(cfg, s)
    requires s.cursor.Some? && Place(s.cursor, c.seqNo).Next?
    ensures var t := ApplyPush(s, c).0; Path(t) && Accounted(cfg, t)
  {
    var t := ApplyPush(s, c).0;
    hide Path, Accounted;
    assert t.routed[|s.routed|] == Changed(c);
    assert Covered(cfg.readers, t.routed, c);
    AdvanceKeepsPath(cfg, s, t, [c]);
    AdvanceKeepsAccounts(cfg, s, t, [c], [Changed(c)]);
  }

  lemma PushKeeps(cfg: Config, s: State, c: Change)
    requires Invariant(cfg, s) && s.running.Idle? && !s.stopped
    ensures Invariant(cfg, ApplyPush(s, c).0)
  {
    hide Path, Accounted, Telling, Notices;
    if s.cursor.None? {
      FirstPushKeeps(cfg, s, c);
    } else if Place(s.cursor, c.seqNo).Next? {
      var t := ApplyPush(s, c).0;
      NextPushAdvances(cfg, s, c);
      OneNotice(c);
      PassTells(s, t, [c]);
    }
  }

  /** Passing `more`, told at once. */
  lemma PassTells(s: State, t: State, more: seq<Change>)
    requires Telling(s) && !s.stopped && !t.stopped
    requires t.passed == s.passed + more && t.caught == s.caught
    requires Kept(s.running) == [] && Kept(t.running) == [] && t.told == s.told + Notices(more)
    ensures Telling(t)
  {
    hide Notices, Weave;
    var ns := Notices(s.passed);
    var m := |s.told| - |Block(s.caught)|;
    NoticesAppend(s.passed, more);
    var all := Notices(t.passed);
    assert ns[m..] == [] && ns[..m] == ns;
    WeaveExtends(ns, Notices(more), s.caught);
    assert all[..|all|] == all;
  }

  /** Passing `more`, kept by a replay for its end. */
  lemma PassKeeps(s: State, t: State, more: seq<Change>)
    requires Telling(s) && !s.stopped && !t.stopped
    requires t.passed == s.passed + more && t.caught == s.caught
    requires Kept(t.running) == Kept(s.running) + Notices(more) && t.told == s.told
    ensures Telling(t)
  {
    hide Notices, Weave;
    var ns := Notices(s.passed);
    var m := |s.told| - |Block(s.caught)|;
    NoticesAppend(s.passed, more);
    var all := Notices(t.passed);
    assert all[..m] == ns[..m];
    assert all[m..] == ns[m..] + Notices(more);
  }

  /** Ending a replay tells what it kept. */
  lemma FlushKeepsTelling(s: State, kept: seq<Change>)
    requires Telling(s) && Kept(s.running) == kept
    ensures Telling(Tell(s.(running := Idle), kept))
  {
    hide Notices;
    if !s.stopped {
      var ns := Notices(s.passed);
      var m := |s.told| - |Block(s.caught)|;
      WeaveExtends(ns[..m], kept, s.caught);
      assert ns == ns[..m] + kept;
      assert ns[..|ns|] == ns;
    }
  }

  lemma SamePath(s: State, t: State)
    requires Path(s)
    requires t.cursor == s.cursor && t.base == s.base && t.passed == s.passed && t.caught == s.caught
    ensures Path(t)
  {
  }

  lemma SameTelling(s: State, t: State)
    requires Telling(s)
    requires t.told == s.told && t.passed == s.passed && t.caught == s.caught
    requires s.stopped ==> t.stopped
    requires t.stopped || Kept(t.running) == Kept(s.running)
    ensures Telling(t)
  {
    hide Notices, Weave;
  }

  /** A step that only routes, or moves to another await holding the same notices. */
  lemma QuietKeeps(cfg: Config, s: State, t: State, routed: seq<Envelope>)
    requires Invariant(cfg, s) && CursorShape(t) && OneFirstCatchUp(t)
    requires t.routed == s.routed + routed && t.told == s.told
    requires t.cursor == s.cursor && t.base == s.base && t.jumps == s.jumps
    requires t.passed == s.passed && t.caught == s.caught
    requires s.stopped ==> t.stopped
    requires t.stopped || Kept(t.running) == Kept(s.running)
    ensures Invariant(cfg, t)
  {
    hide Path, Accounted, Telling, CursorShape, OneFirstCatchUp;
    SamePath(s, t);
    SameTelling(s, t);
    RoutingKeepsAccounts(cfg, s, t, routed);
  }

  lemma FlushKeeps(cfg: Config, s: State, kept: seq<Change>)
    requires Invariant(cfg, s) && Kept(s.running) == kept
    requires s.running.Replaying? || s.running.Resyncing?
    ensures Invariant(cfg, Tell(s.(running := Idle), kept))
  {
    hide Path, Accounted, Telling;
    var t := Tell(s.(running := Idle), kept);
    SamePath(s, t);
    FlushKeepsTelling(s, kept);
    RoutingKeepsAccounts(cfg, s, t, []);
  }

  /** The push that began a replay, applied once more when the replay has ended. */
  lemma RedeliverKeeps(cfg: Config, s: State, c: Change)
    requires Invariant(cfg, s) && s.running.Idle? && !s.stopped
    ensures var (applied, gap) := ApplyPush(s, c);
            Invariant(cfg, if gap.None? then applied else s.(routed := s.routed + [Changed(c)]))
  {
    hide Path, Accounted, Telling;
    var (applied, gap) := ApplyPush(s, c);
    if gap.None? {
      PushKeeps(cfg, s, c);
    } else {
      QuietKeeps(cfg, s, s.(routed := s.routed + [Changed(c)]), [Changed(c)]);
    }
  }

  lemma EndReplayKeeps(cfg: Config, s: State, kept: seq<Change>, next: Continuation)
    requires Invariant(cfg, s) && Kept(s.running) == kept
    requires s.running.Replaying? || s.running.Resyncing?
    ensures Invariant(cfg, EndReplay(s, kept, next))
  {
    hide Path, Accounted, Telling;
    var ended := Tell(s.(running := Idle), kept);
    FlushKeeps(cfg, s, kept);
    if next.Redeliver? && !ended.stopped {
      RedeliverKeeps(cfg, ended, next.change);
    }
  }

  /** A replay's page before it is known whether another follows: the cursor moved, the notices held. */
  function PageMoved(cfg: Config, s: State, records: seq<Record>): State
    requires s.running.Replaying?
  {
    var page := ApplyAll(s.cursor, ChangesOf(records));
    s.(cursor := page.cursor, passed := s.passed + page.passed,
       routed := s.routed + Frames(LastPerKey(page.passed, cfg.readers)),
       running := Replaying(if page.cursor.Some? then page.cursor.value else 0,
                            s.running.kept + Notices(page.passed), s.running.next))
  }

  /** A page's own part: a run of positions after the cursor, each covered by a route. */
  lemma PageAdvances(cfg: Config, s: State, records: seq<Record>)
    requires s.running.Replaying? && s.cursor.Some?
    ensures var more := ApplyAll(s.cursor, ChangesOf(records)).passed;
            var t := PageMoved(cfg, s, records);
            && Advances(cfg, s, t, more)
            && t.running.from == t.cursor.value
            && (forall c :: c in more ==> Covered(cfg.readers, t.routed, c))
  {
    hide LastPerKey, ApplyAll, Notices, Covered;
    var more := ApplyAll(s.cursor, ChangesOf(records)).passed;
    ApplyAllPasses(s.cursor.value, ChangesOf(records));
    assert Ascending(more);
    var t := PageMoved(cfg, s, records);
    forall c | c in more
      ensures Covered(cfg.readers, t.routed, c)
    {
      CoveredByPage(cfg.readers, s.routed, more, c);
    }
  }

  lemma PageMovedKeeps(cfg: Config, s: State, records: seq<Record>)
    requires Invariant(cfg, s) && s.running.Replaying? && !s.stopped
    ensures Invariant(cfg, PageMoved(cfg, s, records))
  {
    hide LastPerKey, ApplyAll, Notices, Path, Accounted, Telling, Covered;
    var t := PageMoved(cfg, s, records);
    var more := ApplyAll(s.cursor, ChangesOf(records)).passed;
    PageAdvances(cfg, s, records);
    AdvanceKeepsPath(cfg, s, t, more);
    AdvanceKeepsAccounts(cfg, s, t, more, Frames(LastPerKey(more, cfg.readers)));
    PassKeeps(s, t, more);
  }

  lemma ReplayPageKeeps(cfg: Config, s: State, records: seq<Record>)
    requires Invariant(cfg, s) && s.running.Replaying?
    ensures Invariant(cfg, ReplayPage(cfg, s, records))
  {
    hide LastPerKey, ApplyAll, Notices, Path, Accounted, Telling, Covered, OneFirstCatchUp;
    if s.stopped {
      EndReplayKeeps(cfg, s, s.running.kept, s.running.next);
    } else {
      PageAdvances(cfg, s, records);
      PageMovedKeeps(cfg, s, records);
      var moved := PageMoved(cfg, s, records);
      if ReplayPage(cfg, s, records) != moved {
        EndReplayKeeps(cfg, moved, moved.running.kept, moved.running.next);
      }
    }
  }

  /** The records of an ordered tail, as changes up to the head. */
  lemma TailAscends(records: seq<Record>, head: int, after: int, since: int)
    requires Oldest1st(records)
    ensures var recent := TailSince(UpTo(records, head), after, since);
            recent.Some? ==>
              && Ascending(ChangesOf(recent.value))
              && (forall c :: c in ChangesOf(recent.value) ==> c.seqNo <= head)
  {
    var tail := UpTo(records, head);
    UpToOldest1st(records, head);
    UpToKeeps(records, head);
    ProducedSinceOldest1st(tail, since);
    ProducedSinceKeeps(tail, since);
    var recent := ProducedSince(tail, since);
    var changes := ChangesOf(recent);
    forall c | c in changes
      ensures c.seqNo <= head
    {
      var i :| 0 <= i < |changes| && changes[i] == c;
      assert recent[i] in tail;
    }
  }

  /** The first catch-up's notices join what was told, at the place they were told. */
  lemma CaughtKeepsTelling(s: State, t: State, block: seq<Change>)
    requires Telling(s) && !s.stopped && s.caught.None? && Kept(s.running) == [] && Kept(t.running) == []
    requires t.passed == s.passed && t.told == s.told + block
    requires t.caught == Some(Caught(|s.told|, block))
    ensures Telling(t)
  {
    hide Notices;
    var ns := Notices(s.passed);
    assert ns[|s.told|..] == [];
    assert ns[..|s.told|] == ns == s.told;
    assert Weave(s.told, t.caught) == s.told + block;
  }

  lemma TailPageKeeps(cfg: Config, s: State, records: seq<Record>)
    requires Invariant(cfg, s) && s.running.ReadingTail? && Oldest1st(records)
    ensures Invariant(cfg, TailPage(cfg, s, records))
  {
    hide Accounted, Telling, Notices, LastPerKey, TailSince, Covered;
    var ReadingTail(head, began) := s.running;
    var t := TailPage(cfg, s, records);
    var after := TailStart(head, cfg.pageSize);
    var recent := TailSince(UpTo(records, head), after, began);
    if s.stopped || recent.None? {
      QuietKeeps(cfg, s, t, []);
    } else {
      var changes := ChangesOf(recent.value);
      TailAscends(records, head, after, began);
      NoticesAscending(changes);
      NoticesSound(changes);
      RoutingKeepsAccounts(cfg, s, t, Frames(LastPerKey(changes, cfg.readers)));
      CaughtKeepsTelling(s, t, Notices(changes));
    }
  }

  lemma ResyncedKeeps(cfg: Config, s: State, head: int, kept: seq<Change>, next: Continuation)
    requires Invariant(cfg, s) && s.running == Resyncing(head, kept, next)
    requires !s.stopped && s.cursor.Some? && head > s.cursor.value
    ensures var jumped := s.(cursor := Some(head), jumps := s.jumps + [Jump(s.cursor.value, head)]);
            Invariant(cfg, EndReplay(jumped, kept, next))
  {
    hide Accounted, Notices, Weave;
    var jumped := s.(cursor := Some(head), jumps := s.jumps + [Jump(s.cursor.value, head)]);
    JumpKeepsAccounts(cfg, s, jumped, head);
    assert Path(jumped) && Telling(jumped);
    EndReplayKeeps(cfg, jumped, kept, next);
  }

  lemma RefreshedKeeps(cfg: Config, s: State, ok: bool)
    requires Invariant(cfg, s)
    ensures Invariant(cfg, RefreshedStep(s, ok))
  {
    hide Path, Accounted, Telling;
    match s.running
    case Refreshing => QuietKeeps(cfg, s, RefreshedStep(s, ok), []);
    case Resyncing(head, kept, next) =>
      if !ok {
        EndReplayKeeps(cfg, s, kept, Finish);
      } else if s.stopped || head <= s.cursor.value {
        EndReplayKeeps(cfg, s, kept, next);
      } else {
        ResyncedKeeps(cfg, s, head, kept, next);
      }
    case _ =>
  }

  lemma JumpKeepsAccounts(cfg: Config, s: State, t: State, head: int)
    requires CursorShape(s) && Accounted(cfg, s) && s.cursor.Some? && head > s.cursor.value
    requires t == s.(cursor := Some(head), jumps := s.jumps + [Jump(s.cursor.value, head)])
    ensures Accounted(cfg, t)
  {
    forall n | t.base.value < n <= t.cursor.value
      ensures PassedAt(t, n) || JumpedOver(t, n)
    {
      if n > s.cursor.value {
        assert t.jumps[|s.jumps|] == Jump(s.cursor.value, head);
      } else if PassedAt(s, n) {
        assert PassedAt(t, n);
      } else {
        var i :| 0 <= i < |s.jumps| && s.jumps[i].from < n <= s.jumps[i].to;
        assert t.jumps[i] == s.jumps[i];
      }
    }
  }

  /** Only the inbox grows, by jobs that are no first catch-up. */
  lemma EnqueueKeeps(cfg: Config, s: State, job: Job)
    requires Invariant(cfg, s) && !job.FirstCatchUp?
    ensures Invariant(cfg, Enqueue(s, job))
  {
    QuietKeeps(cfg, s, Enqueue(s, job), []);
  }

  /** The hello that starts the cursor. */
  lemma HelloKeeps(cfg: Config, s: State, head: int, sentAt: Option<int>, waited: int)
    requires Invariant(cfg, s) && s.cursor.None?
    ensures Invariant(cfg, s.(cursor := Some(head), base := Some(head),
                              inbox := s.inbox + [FirstCatchUp(head, sentAt, waited)]))
  {
    hide Covered;
  }

  lemma ReceiveKeeps(cfg: Config, s: State, frame: Envelope, waited: int)
    requires Invariant(cfg, s)
    ensures Invariant(cfg, Receive(s, frame, waited))
  {
    hide Path, Accounted, Telling, OneFirstCatchUp;
    if !s.stopped {
      if frame.Hello? && s.cursor.None? {
        HelloKeeps(cfg, s, frame.head, frame.sentAt, waited);
        var t := s.(cursor := Some(frame.head), base := Some(frame.head),
                    inbox := s.inbox + [FirstCatchUp(frame.head, frame.sentAt, waited)]);
        EnqueueKeeps(cfg, t, Deliver(frame));
      } else {
        EnqueueKeeps(cfg, s, Deliver(frame));
      }
    }
  }

  lemma ProceedKeeps(cfg: Config, s: State)
    requires Invariant(cfg, s)
    ensures Invariant(cfg, ProceedStep(cfg, s))
  {
    hide Path, Accounted, Telling;
    if s.running.Idle? && s.inbox != [] {
      var job := s.inbox[0];
      var taken := s.(inbox := s.inbox[1..]);
      QuietKeeps(cfg, s, taken, []);
      if !s.stopped {
        StartKeeps(cfg, taken, job);
      }
    }
  }

  lemma DeliverKeeps(cfg: Config, s: State, frame: Envelope)
    requires Invariant(cfg, s) && s.running.Idle? && !s.stopped
    ensures Invariant(cfg, Start(cfg, s, Deliver(frame)))
  {
    hide Path, Accounted, Telling;
    var t := Start(cfg, s, Deliver(frame));
    match frame
    case Changed(c) =>
      PushKeeps(cfg, s, c);
      if ApplyPush(s, c).1.Some? {
        QuietKeeps(cfg, s, t, []);
      }
    case Pong(_) => QuietKeeps(cfg, s, t, []);
    case _ => QuietKeeps(cfg, s, t, [frame]);
  }

  lemma StartKeeps(cfg: Config, s: State, job: Job)
    requires Invariant(cfg, s) && s.running.Idle? && !s.stopped
    requires job.FirstCatchUp? ==>
               && s.caught.None? && s.base == Some(job.head)
               && forall i :: 0 <= i < |s.inbox| ==> !s.inbox[i].FirstCatchUp?
    ensures Invariant(cfg, Start(cfg, s, job))
  {
    hide Path, Accounted, Telling;
    match job
    case Deliver(frame) => DeliverKeeps(cfg, s, frame);
    case _ => QuietKeeps(cfg, s, Start(cfg, s, job), []);
  }

  /** A refusal or a failed read of the tail leads to a refresh; a replay refused as truncated, to a resync. */
  lemma RefusalKeeps(cfg: Config, s: State, e: Event)
    requires Invariant(cfg, s) && (e.Failed? || e.Truncated?)
    ensures Invariant(cfg, Step(cfg, s, e))
  {
    hide Path, Accounted, Telling;
    if e.Failed? && s.running.Replaying? {
      EndReplayKeeps(cfg, s, s.running.kept, s.running.next);
    } else {
      QuietKeeps(cfg, s, Step(cfg, s, e), []);
    }
  }

  lemma StopKeeps(cfg: Config, s: State)
    requires Invariant(cfg, s)
    ensures Invariant(cfg, s.(stopped := true))
  {
    hide Path, Accounted, Telling;
    QuietKeeps(cfg, s, s.(stopped := true), []);
  }

  /** Every step keeps the invariant. */
  lemma StepKeeps(cfg: Config, s: State, e: Event)
    requires Invariant(cfg, s)
    requires e.Page? && s.running.ReadingTail? ==> Oldest1st(e.records)
    ensures Invariant(cfg, Step(cfg, s, e))
  {
    hide Invariant;
    match e
    case Frame(frame, waited) => ReceiveKeeps(cfg, s, frame, waited);
    case Opened => EnqueueKeeps(cfg, s, CatchUp);
    case Polled => EnqueueKeeps(cfg, s, CatchUp);
    case Stable => EnqueueKeeps(cfg, s, CatchUp);
    case Proceed => ProceedKeeps(cfg, s);
    case Refreshed(ok) => RefreshedKeeps(cfg, s, ok);
    case Stop => StopKeeps(cfg, s);
    case Failed => RefusalKeeps(cfg, s, e);
    case Truncated(_) => RefusalKeeps(cfg, s, e);
    case Page(records) =>
      if s.running.Replaying? {
        ReplayPageKeeps(cfg, s, records);
      } else if s.running.ReadingTail? {
        TailPageKeeps(cfg, s, records);
      }
  }

  lemma {:induction false} RunKeeps(cfg: Config, events: seq<Event>)
    requires TailsInOrder(cfg, events)
    ensures Invariant(cfg, Run(cfg, events))
  {
    hide Step;
    if events != [] {
      var before := events[..|events| - 1];
      RunKeeps(cfg, before);
      StepKeeps(cfg, Run(cfg, before), events[|events| - 1]);
    }
  }
}
