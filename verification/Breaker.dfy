/**
 The breaker in front of a dependency: refuses calls for a cool-down once enough
 calls in a row spent the timeout, then lets one through to decide
 (`infra/src/tadas/infra/breaker.py`).
 */
module Breaker {
  import opened Options

  /** The bound from settings, and the cool-down and the timeout in seconds. */
  datatype Settings = Settings(failures: int, cooldown: real, slow: real)

  /** How many times each outcome was counted. */
  datatype Counts = Counts(openings: nat, refusals: nat, probes: nat, closings: nat)

  datatype State = State(consecutive: nat, openedAt: Option<real>, probing: bool, counts: Counts)

  /** A call asks to go out, or one that went out ends; `later` is the clock read once more to open the breaker. */
  datatype Event =
    | Ask(now: real)
    | Ends(started: real, now: real, later: real, cancelled: bool)

  const CLOSED := State(0, None, false, Counts(0, 0, 0, 0))

  predicate IsOpen(s: State) {
    s.openedAt.Some?
  }

  predicate Allows(c: Settings, s: State, now: real) {
    s.openedAt.None? || !(s.probing || now - s.openedAt.value < c.cooldown)
  }

  predicate IsSlow(c: Settings, e: Event)
    requires e.Ends?
  {
    e.now - e.started >= c.slow
  }

  /** A call cancelled before it spent the timeout. */
  predicate IsEarly(c: Settings, e: Event) {
    e.Ends? && e.cancelled && !IsSlow(c, e)
  }

  function Failed(c: Settings, s: State, later: real): State {
    var counted := s.(probing := false, consecutive := s.consecutive + 1);
    if s.openedAt.Some? then counted.(openedAt := Some(later))
    else if counted.consecutive < c.failures then counted
    else counted.(openedAt := Some(later), counts := s.counts.(openings := s.counts.openings + 1))
  }

  function Succeeded(s: State): State {
    var back := s.(probing := false, consecutive := 0);
    if s.openedAt.None? then back
    else back.(openedAt := None, counts := s.counts.(closings := s.counts.closings + 1))
  }

  function Step(c: Settings, s: State, e: Event): State {
    match e
    case Ask(now) =>
      if s.openedAt.None? then s
      else if !Allows(c, s, now) then s.(counts := s.counts.(refusals := s.counts.refusals + 1))
      else s.(probing := true, counts := s.counts.(probes := s.counts.probes + 1))
    case Ends(started, now, later, cancelled) =>
      if IsSlow(c, e) then Failed(c, s, later)
      else if cancelled then s.(probing := false)
      else Succeeded(s)
  }

  function RunFrom(c: Settings, s: State, events: seq<Event>): State {
    if events == [] then s
    else Step(c, RunFrom(c, s, events[..|events| - 1]), events[|events| - 1])
  }

  function Run(c: Settings, events: seq<Event>): State {
    RunFrom(c, CLOSED, events)
  }

  // ------------------------------------------------------------ the breaker and its history

  /** How many calls in a row, up to now, spent the timeout; calls cancelled early say nothing. */
  function TrailingSlow(c: Settings, events: seq<Event>): nat {
    if events == [] then 0
    else
      var last, before := events[|events| - 1], TrailingSlow(c, events[..|events| - 1]);
      if last.Ask? || IsEarly(c, last) then before
      else if IsSlow(c, last) then before + 1
      else 0
  }

  /**
   Over every run the breaker is open exactly when enough calls in a row spent the
   timeout, one at least, and it lets a call through to decide only while it is open.
   */
  lemma {:induction false} OpenExactlyAfterASlowRun(c: Settings, events: seq<Event>)
    ensures var s, slow := Run(c, events), TrailingSlow(c, events);
            && (IsOpen(s) <==> slow >= 1 && slow >= c.failures)
            && (s.probing ==> IsOpen(s))
            && s.consecutive == slow
  {
    if events != [] {
      OpenExactlyAfterASlowRun(c, events[..|events| - 1]);
    }
  }

  function CountAsks(events: seq<Event>): nat {
    if events == [] then 0 else CountAsks(events[..|events| - 1]) + if events[|events| - 1].Ask? then 1 else 0
  }

  function CountEnds(events: seq<Event>): nat {
    if events == [] then 0 else CountEnds(events[..|events| - 1]) + if events[|events| - 1].Ends? then 1 else 0
  }

  /** How many of the calls that asked were let out. */
  function CountAdmitted(c: Settings, s: State, events: seq<Event>): nat {
    if events == [] then 0
    else
      var front, last := events[..|events| - 1], events[|events| - 1];
      CountAdmitted(c, s, front) + if last.Ask? && Allows(c, RunFrom(c, s, front), last.now) then 1 else 0
  }

  /**
   Over every run each opening is closed but the one that stands, and every call that asked was let
   out or refused.
   */
  lemma {:induction false} CountsBalance(c: Settings, events: seq<Event>)
    ensures var s := Run(c, events);
            && s.counts.openings == s.counts.closings + (if IsOpen(s) then 1 else 0)
            && CountAdmitted(c, CLOSED, events) + s.counts.refusals == CountAsks(events)
  {
    if events != [] {
      CountsBalance(c, events[..|events| - 1]);
    }
  }

  // ------------------------------------------------------------ what an open breaker lets out

  ghost predicate OnlyAsks(events: seq<Event>) {
    forall k :: 0 <= k < |events| ==> events[k].Ask?
  }

  /** While it is open, at most one call is let out between two that end; none while one is out to decide. */
  lemma {:induction false} OneCallBetweenTwoEnds(c: Settings, s: State, asks: seq<Event>)
    requires IsOpen(s) && OnlyAsks(asks)
    ensures CountAdmitted(c, s, asks) <= 1
    ensures CountAdmitted(c, s, asks) == 1 ==> !s.probing && RunFrom(c, s, asks).probing
    ensures RunFrom(c, s, asks).openedAt == s.openedAt
    ensures CountAdmitted(c, s, asks) == 0 ==> RunFrom(c, s, asks).probing == s.probing
  {
    if asks != [] {
      OneCallBetweenTwoEnds(c, s, asks[..|asks| - 1]);
    }
  }

  /**
   Whatever ends in between, a breaker that is open throughout lets out at most one
   call more than the calls that end.
   */
  lemma {:induction false} CallsOutWhileOpen(c: Settings, s: State, events: seq<Event>)
    requires forall k :: 0 <= k <= |events| ==> IsOpen(RunFrom(c, s, events[..k]))
    ensures CountAdmitted(c, s, events) + (if s.probing then 1 else 0)
         <= CountEnds(events) + (if RunFrom(c, s, events).probing then 1 else 0)
  {
    if events != [] {
      var front, e := events[..|events| - 1], events[|events| - 1];
      assert forall k :: 0 <= k <= |front| ==> front[..k] == events[..k];
      CallsOutWhileOpen(c, s, front);
      assert IsOpen(RunFrom(c, s, events[..|front|]));
    }
  }

  // ------------------------------------------------------------ probes

  predicate Probes(c: Settings, s: State, e: Event) {
    e.Ask? && IsOpen(s) && Allows(c, s, e.now)
  }

  /** The clock never goes back. */
  ghost predicate ClockAtLeast(from: real, e: Event) {
    match e
    case Ask(now) => now >= from
    case Ends(started, now, later, cancelled) => now >= from && later >= from
  }

  ghost predicate SinceThen(s: State, at: real) {
    s.probing || s.openedAt.None? || s.openedAt.value >= at
  }

  lemma {:induction false} NothingEarlyKeeps(c: Settings, s: State, events: seq<Event>, at: real)
    requires SinceThen(s, at)
    requires forall k :: 0 <= k < |events| ==> ClockAtLeast(at, events[k]) && !IsEarly(c, events[k])
    ensures SinceThen(RunFrom(c, s, events), at)
  {
    if events != [] {
      NothingEarlyKeeps(c, s, events[..|events| - 1], at);
    }
  }

  /**
   From any state, two calls let out to decide are a cool-down apart, unless a call
   was cancelled early between them.
   */
  lemma ProbesAreACooldownApart(c: Settings, s: State, first: Event, between: seq<Event>, second: Event)
    requires Probes(c, s, first)
    requires Probes(c, RunFrom(c, Step(c, s, first), between), second)
    requires forall k :: 0 <= k < |between| ==> ClockAtLeast(first.now, between[k]) && !IsEarly(c, between[k])
    ensures second.now >= first.now + c.cooldown
  {
    hide RunFrom;
    NothingEarlyKeeps(c, Step(c, s, first), between, first.now);
  }

  /** Nothing that ends but calls cancelled early. */
  ghost predicate OnlyAsksAndEarly(c: Settings, events: seq<Event>) {
    forall k :: 0 <= k < |events| ==> events[k].Ask? || IsEarly(c, events[k])
  }

  ghost predicate EndsEarly(c: Settings, events: seq<Event>) {
    events != [] && IsEarly(c, events[|events| - 1])
  }

  /**
   What a stretch after a call let out to decide leaves: the slot freed by its last event, or the
   cool-down restarted.
   */
  lemma {:induction false} AfterAProbe(c: Settings, s: State, first: Event, between: seq<Event>)
    requires Probes(c, s, first)
    requires forall k :: 0 <= k < |between| ==> ClockAtLeast(first.now, between[k])
    ensures var t := RunFrom(c, Step(c, s, first), between);
            if OnlyAsksAndEarly(c, between)
            then t.openedAt == s.openedAt && (t.probing <==> !EndsEarly(c, between))
            else t.openedAt.None? || t.openedAt.value >= first.now
  {
    if between != [] {
      var front := between[..|between| - 1];
      AfterAProbe(c, s, first, front);
      assert OnlyAsksAndEarly(c, between) ==> OnlyAsksAndEarly(c, front);
    }
  }

  /**
   Less than a cool-down after a call let out to decide, another is let out exactly when
   the last thing since was a call cancelled early, and nothing ended since but such calls.
   */
  lemma ASecondGoesOutSoonExactlyWhen(c: Settings, s: State, first: Event, between: seq<Event>, second: Event)
    requires Probes(c, s, first) && second.Ask? && first.now <= second.now < first.now + c.cooldown
    requires forall k :: 0 <= k < |between| ==> ClockAtLeast(first.now, between[k])
    ensures Probes(c, RunFrom(c, Step(c, s, first), between), second)
       <==> OnlyAsksAndEarly(c, between) && EndsEarly(c, between)
  {
    hide RunFrom, OnlyAsksAndEarly, EndsEarly;
    AfterAProbe(c, s, first, between);
  }

  /** A call let out to decide within a stretch, less than a cool-down after the one before it. */
  ghost predicate GoesOutSoon(c: Settings, s: State, first: Event, between: seq<Event>, k: nat)
    requires k < |between| && first.Ask?
  {
    && between[k].Ask? && between[k].now < first.now + c.cooldown
    && Probes(c, RunFrom(c, Step(c, s, first), between[..k]), between[k])
  }

  /** An ask as soon as that, right after a call cancelled early, with nothing else ended since. */
  predicate AsksRightAfterEarly(c: Settings, first: Event, between: seq<Event>, k: nat)
    requires k < |between| && first.Ask?
  {
    && between[k].Ask? && between[k].now < first.now + c.cooldown
    && k > 0 && IsEarly(c, between[k - 1])
    && forall i :: 0 <= i < k ==> between[i].Ask? || IsEarly(c, between[i])
  }

  /**
   So over any stretch two calls let out to decide come closer than a cool-down exactly
   when some ask in it follows right on an early cancellation, before anything else ended.
   */
  lemma ProbesComeCloserExactlyWhen(c: Settings, s: State, first: Event, between: seq<Event>)
    requires first.Ask? && Probes(c, s, first)
    requires forall k :: 0 <= k < |between| ==> ClockAtLeast(first.now, between[k])
    ensures (exists k :: 0 <= k < |between| && GoesOutSoon(c, s, first, between, k))
       <==> (exists k :: 0 <= k < |between| && AsksRightAfterEarly(c, first, between, k))
  {
    hide RunFrom, Step, Probes;
    forall k | 0 <= k < |between|
      ensures GoesOutSoon(c, s, first, between, k) <==> AsksRightAfterEarly(c, first, between, k)
    {
      var before := between[..k];
      if between[k].Ask? && between[k].now < first.now + c.cooldown {
        ASecondGoesOutSoonExactlyWhen(c, s, first, before, between[k]);
      }
    }
  }

  /** One call that spends the timeout opens it; the probe after the cool-down is out, and is cancelled early. */
  const CANCELLED_PROBE := [
    Ends(0.0, 5.0, 5.0, false), Ask(15.0), Ends(15.0, 16.0, 16.0, true)
  ]

  /** A run from a new breaker in which two calls are let out to decide less than a cool-down apart. */
  lemma ProbesCanComeCloser()
    ensures var c := Settings(1, 10.0, 5.0);
            && Probes(c, Run(c, CANCELLED_PROBE[..1]), CANCELLED_PROBE[1])
            && Probes(c, Run(c, CANCELLED_PROBE), Ask(16.0))
            && 16.0 < 15.0 + c.cooldown
  {
    var c := Settings(1, 10.0, 5.0);
    assert CANCELLED_PROBE[..2][..1] == CANCELLED_PROBE[..1] && CANCELLED_PROBE[..1][..0] == [];
    assert Run(c, []) == CLOSED;
    var first := Step(c, CLOSED, CANCELLED_PROBE[0]);
    assert Run(c, CANCELLED_PROBE[..1]) == first;
    var probing := Step(c, first, CANCELLED_PROBE[1]);
    assert Run(c, CANCELLED_PROBE[..2]) == probing;
    assert Run(c, CANCELLED_PROBE) == Step(c, probing, CANCELLED_PROBE[2]);
  }

  // ------------------------------------------------------------ the breaker as its history decides

  /** Enough calls in a row spent the timeout, one at least. */
  predicate Tripped(c: Settings, events: seq<Event>) {
    TrailingSlow(c, events) >= 1 && TrailingSlow(c, events) >= c.failures
  }

  /** The clock when the last call that spent the timeout ended. */
  function LastSlowEnd(c: Settings, events: seq<Event>): Option<real> {
    if events == [] then None
    else
      var last := events[|events| - 1];
      if last.Ends? && IsSlow(c, last) then Some(last.later) else LastSlowEnd(c, events[..|events| - 1])
  }

  predicate CooldownIsOver(c: Settings, events: seq<Event>, now: real) {
    var ended := LastSlowEnd(c, events);
    ended.Some? && now - ended.value >= c.cooldown
  }

  /** The k-th event asks once enough were slow and a cool-down has passed since. */
  ghost predicate AsksToDecide(c: Settings, events: seq<Event>, k: nat)
    requires k < |events|
  {
    events[k].Ask? && Tripped(c, events[..k]) && CooldownIsOver(c, events[..k], events[k].now)
  }

  /** Some call asked to decide, and none has ended since. */
  ghost predicate Undecided(c: Settings, events: seq<Event>) {
    exists k :: 0 <= k < |events| && AsksToDecide(c, events, k) && OnlyAsks(events[k..])
  }

  lemma UndecidedAfter(c: Settings, front: seq<Event>, e: Event)
    ensures var events := front + [e];
            Undecided(c, events) <==> e.Ask? && (Undecided(c, front) || AsksToDecide(c, events, |front|))
  {
    hide Tripped, CooldownIsOver;
    var events := front + [e];
    assert events[|front|] == e && events[|front|..] == [e];
    if Undecided(c, events) {
      var k :| 0 <= k < |events| && AsksToDecide(c, events, k) && OnlyAsks(events[k..]);
      assert events[k..][|front| - k] == e;
      if k < |front| {
        assert front[..k] == events[..k] && events[k..] == front[k..] + [e];
        assert forall j :: 0 <= j < |front[k..]| ==> front[k..][j] == events[k..][j];
        assert AsksToDecide(c, front, k) && OnlyAsks(front[k..]);
      }
    }
    if e.Ask? && Undecided(c, front) {
      var k :| 0 <= k < |front| && AsksToDecide(c, front, k) && OnlyAsks(front[k..]);
      assert front[..k] == events[..k] && events[k..] == front[k..] + [e];
      assert AsksToDecide(c, events, k) && OnlyAsks(events[k..]);
    }
  }

  /** When the breaker opened, and whether a call it let out to decide is out, are what its history says. */
  lemma {:induction false} StateIsWhatHappened(c: Settings, events: seq<Event>)
    ensures var s := Run(c, events);
            && s.openedAt == (if Tripped(c, events) then LastSlowEnd(c, events) else None)
            && (s.probing <==> Undecided(c, events))
  {
    hide Undecided, AsksToDecide;
    if events == [] {
      NothingUndecided(c);
    } else {
      var front, e := events[..|events| - 1], events[|events| - 1];
      StateIsWhatHappened(c, front);
      OpenExactlyAfterASlowRun(c, front);
      OpenExactlyAfterASlowRun(c, events);
      assert events == front + [e];
      UndecidedAfter(c, front, e);
      DecidesAt(c, front, e);
    }
  }

  lemma NothingUndecided(c: Settings)
    ensures !Undecided(c, [])
  {
  }

  lemma DecidesAt(c: Settings, front: seq<Event>, e: Event)
    ensures AsksToDecide(c, front + [e], |front|)
       <==> e.Ask? && Tripped(c, front) && CooldownIsOver(c, front, e.now)
  {
    hide Tripped, CooldownIsOver;
    assert (front + [e])[..|front|] == front;
  }

  /** Too few were slow, or none is out to decide and a cool-down has passed since the last slow one. */
  ghost predicate MayGoOut(c: Settings, events: seq<Event>, now: real) {
    !Tripped(c, events) || (!Undecided(c, events) && CooldownIsOver(c, events, now))
  }

  /**
   Over every run a call that asks is let out exactly when fewer calls in a row than the bound
   spent the timeout, or none let out to decide is still out and a cool-down has passed since
   the last slow call ended.
   */
  lemma AnAskGoesOutExactlyWhen(c: Settings, events: seq<Event>, now: real)
    ensures Allows(c, Run(c, events), now) <==> MayGoOut(c, events, now)
  {
    hide Run, Undecided, TrailingSlow;
    StateIsWhatHappened(c, events);
    TrippedHasEnded(c, events);
  }

  lemma {:induction false} TrippedHasEnded(c: Settings, events: seq<Event>)
    ensures TrailingSlow(c, events) >= 1 ==> LastSlowEnd(c, events).Some?
  {
    if events != [] {
      TrippedHasEnded(c, events[..|events| - 1]);
    }
  }

  /** What is to be counted of a history: opened, refused, let out to decide, closed. */
  ghost function Tally(c: Settings, events: seq<Event>): Counts {
    if events == [] then Counts(0, 0, 0, 0)
    else
      var front, e := events[..|events| - 1], events[|events| - 1];
      var before := Tally(c, front);
      if e.Ask? && !MayGoOut(c, front, e.now) then before.(refusals := before.refusals + 1)
      else if e.Ask? && Tripped(c, front) then before.(probes := before.probes + 1)
      else if !Tripped(c, front) && Tripped(c, events) then before.(openings := before.openings + 1)
      else if Tripped(c, front) && !Tripped(c, events) then before.(closings := before.closings + 1)
      else before
  }

  /** Every outcome is counted once each time it happened, and at no other time. */
  lemma {:induction false} CountsAreWhatHappened(c: Settings, events: seq<Event>)
    ensures Run(c, events).counts == Tally(c, events)
  {
    hide MayGoOut, TrailingSlow;
    if events != [] {
      var front, e := events[..|events| - 1], events[|events| - 1];
      CountsAreWhatHappened(c, front);
      OpenExactlyAfterASlowRun(c, front);
      OpenExactlyAfterASlowRun(c, events);
      if e.Ask? {
        AnAskGoesOutExactlyWhen(c, front, e.now);
      }
    }
  }

  // ------------------------------------------------------------ the breaker itself

  class Breaker {
    const settings: Settings
    var consecutive: nat
    var openedAt: Option<real>
    var probing: bool
    var counts: Counts

    constructor (settings: Settings)
      ensures this.settings == settings && View() == CLOSED
    {
      this.settings := settings;
      consecutive, openedAt, probing, counts := 0, None, false, Counts(0, 0, 0, 0);
    }

    ghost function View(): State
      reads this
    {
      State(consecutive, openedAt, probing, counts)
    }

    method Asked(now: real) returns (allowed: bool)
      modifies this`probing, this`counts
      ensures allowed == Allows(settings, old(View()), now)
      ensures View() == Step(settings, old(View()), Ask(now))
    {
      if openedAt.None? {
        return true;
      }
      if probing || now - openedAt.value < settings.cooldown {
        counts := counts.(refusals := counts.refusals + 1);
        return false;
      }
      probing := true;
      counts := counts.(probes := counts.probes + 1);
      allowed := true;
    }

    /** Records what a call let through cost, however it ended. */
    method Ended(started: real, now: real, later: real, cancelled: bool)
      modifies this
      ensures View() == Step(settings, old(View()), Ends(started, now, later, cancelled))
    {
      if cancelled && now - started < settings.slow {
        probing := false;
      } else if now - started >= settings.slow {
        RecordFailure(later);
      } else {
        RecordSuccess();
      }
    }

    method RecordFailure(later: real)
      modifies this
      ensures View() == Failed(settings, old(View()), later)
    {
      probing := false;
      consecutive := consecutive + 1;
      if openedAt.Some? {
        openedAt := Some(later);
        return;
      }
      if consecutive < settings.failures {
        return;
      }
      openedAt := Some(later);
      counts := counts.(openings := counts.openings + 1);
    }

    method RecordSuccess()
      modifies this
      ensures View() == Succeeded(old(View()))
    {
      probing := false;
      consecutive := 0;
      if openedAt.None? {
        return;
      }
      openedAt := None;
      counts := counts.(closings := counts.closings + 1);
    }
  }
}
