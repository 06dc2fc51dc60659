/**
 The channel's other half: ticket, socket, backoff, polling and the pause of a
 hidden tab (`apps/portal/src/realtime/channel.ts`), over the status store it
 drives (`apps/portal/src/store/connection.ts`). Sockets are numbered in the order
 they open, and a ticket request is known by the generation it began under.
 */
module Connection {
  import opened Options

  datatype Status = Connecting | Open | Degraded | Paused | Closed

  /** Which timers are set and have not fired. */
  datatype Timers = Timers(reconnect: bool, poll: bool, ping: bool, stable: bool, pause: bool)

  /** The status store, as its actions leave it. */
  datatype Store = Store(status: Status, failedCycles: nat)

  /** `refused` says that the server closed the last socket with 4401. */
  datatype State = State(
    socket: Option<nat>, sockets: nat, requests: seq<nat>, timers: Timers, failures: nat,
    stopped: bool, paused: bool, generation: nat, refused: bool, store: Store)

  datatype Event =
    | TicketAnswered(request: nat, ok: bool)
    | SocketOpened(id: nat)
    | HelloCame(id: nat)
    | SocketClosed(id: nat, unauthenticated: bool)
    | StableFired
    | ReconnectFired
    | PauseFired
    | Hide
    | Show
    | Stop

  const NO_TIMERS := Timers(false, false, false, false, false)
  const FRESH := State(None, 0, [], NO_TIMERS, 0, false, false, 0, false, Store(Closed, 0))

  // ------------------------------------------------------------ the steps

  function Connect(s: State): State {
    if s.stopped || s.paused then s
    else s.(store := if s.failures == 0 then s.store.(status := Connecting) else s.store,
            requests := s.requests + [s.generation])
  }

  function ScheduleReconnect(s: State): State {
    var cycles := s.store.failedCycles + 1;
    s.(failures := s.failures + 1,
       timers := s.timers.(reconnect := true, poll := s.timers.poll || cycles > 1),
       store := Store(if cycles > 1 then Degraded else Connecting, cycles))
  }

  function Settle(s: State): State {
    if s.failures == 0 && s.store.status.Open? then s.(timers := s.timers.(stable := false))
    else s.(timers := s.timers.(stable := false, poll := false), failures := 0, store := Store(Open, 0))
  }

  function Quiesced(timers: Timers): Timers {
    NO_TIMERS.(pause := timers.pause)
  }

  function Answered(s: State, request: nat, ok: bool): State
    requires request < |s.requests|
  {
    var answered := s.(requests := s.requests[..request] + s.requests[request + 1..]);
    if s.stopped || s.requests[request] != s.generation then answered
    else if !ok then ScheduleReconnect(answered)
    else answered.(socket := Some(s.sockets), sockets := s.sockets + 1)
  }

  function ClosedBy(s: State, unauthenticated: bool): State {
    var dropped := s.(timers := s.timers.(ping := false, stable := false), socket := None);
    if unauthenticated then dropped.(store := Store(Closed, 0), refused := true)
    else ScheduleReconnect(dropped)
  }

  function PauseNow(s: State): State {
    if s.stopped || s.paused then s.(timers := s.timers.(pause := false))
    else s.(paused := true, generation := s.generation + 1, failures := 0, refused := false,
            timers := NO_TIMERS, socket := None, store := Store(Paused, 0))
  }

  function Step(s: State, e: Event): State {
    match e
    case TicketAnswered(request, ok) => if request < |s.requests| then Answered(s, request, ok) else s
    case SocketOpened(id) =>
      if s.stopped || s.socket != Some(id) then s else s.(timers := s.timers.(ping := true, stable := true))
    case HelloCame(id) => if s.stopped || s.socket != Some(id) then s else Settle(s)
    case SocketClosed(id, unauthenticated) =>
      if s.stopped || s.socket != Some(id) then s else ClosedBy(s, unauthenticated)
    case StableFired => if s.timers.stable then Settle(s) else s
    case ReconnectFired => if s.timers.reconnect then Connect(s.(timers := s.timers.(reconnect := false))) else s
    case PauseFired => if s.timers.pause then PauseNow(s) else s
    case Hide => if s.stopped || s.paused || s.timers.pause then s else s.(timers := s.timers.(pause := true))
    case Show =>
      var called := s.(timers := s.timers.(pause := false));
      if s.stopped || !s.paused then called else Connect(called.(paused := false))
    case Stop =>
      if s.stopped then s
      else s.(stopped := true, timers := NO_TIMERS, socket := None, store := Store(Closed, 0))
  }

  function Run(events: seq<Event>): State {
    if events == [] then Connect(FRESH)
    else Step(Run(events[..|events| - 1]), events[|events| - 1])
  }

  // ------------------------------------------------------------ what every run keeps

  /** How many ticket requests in flight may still open a socket. */
  ghost function Current(requests: seq<nat>, generation: nat): nat {
    if requests == [] then 0
    else Current(requests[1..], generation) + (if requests[0] == generation then 1 else 0)
  }

  ghost predicate Live(s: State) {
    !s.stopped && !s.paused && !s.refused
  }

  /** The attempts under way: current ticket requests, the socket, the pending reconnect. */
  ghost function Attempts(s: State): nat {
    Current(s.requests, s.generation) + (if s.socket.Some? then 1 else 0) + (if s.timers.reconnect then 1 else 0)
  }

  ghost predicate OneConnection(s: State) {
    && (Live(s) ==> Attempts(s) == 1)
    && (!Live(s) ==> s.socket.None? && !s.timers.reconnect && (!s.stopped ==> Attempts(s) == 0))
  }

  ghost predicate StatusTells(s: State) {
    && (s.store.status.Open? ==> s.socket.Some?)
    && (s.timers.ping || s.timers.stable ==> s.socket.Some?)
    && (!s.stopped ==> (s.store.status.Paused? <==> s.paused))
    && (!s.stopped && !s.refused ==> s.failures == s.store.failedCycles && !s.store.status.Closed?)
    && (!s.stopped && !s.refused ==>
          (s.timers.poll <==> s.store.status.Degraded?) && (s.timers.poll <==> s.failures >= 2))
    && (s.stopped ==> s.store.status.Closed? && !s.timers.poll && !s.timers.pause)
    && (s.refused && !s.stopped ==> s.store.status.Closed?)
    && (s.stopped || s.refused ==> s.store.failedCycles == 0)
    && (s.paused && !s.stopped ==> s.failures == 0 && !s.timers.pause && !s.refused)
  }

  ghost predicate NoneAhead(s: State) {
    && (forall i :: 0 <= i < |s.requests| ==> s.requests[i] <= s.generation)
    && (s.socket.Some? ==> s.socket.value < s.sockets)
  }

  ghost predicate Invariant(s: State) {
    OneConnection(s) && StatusTells(s) && NoneAhead(s)
  }

  lemma {:induction false} CurrentAppend(requests: seq<nat>, more: nat, generation: nat)
    ensures Current(requests + [more], generation)
         == Current(requests, generation) + (if more == generation then 1 else 0)
  {
    if requests == [] {
      assert requests + [more] == [more];
      assert Current([], generation) == 0;
    } else {
      assert (requests + [more])[1..] == requests[1..] + [more];
      CurrentAppend(requests[1..], more, generation);
    }
  }

  lemma {:induction false} CurrentRemove(requests: seq<nat>, i: nat, generation: nat)
    requires i < |requests|
    ensures Current(requests[..i] + requests[i + 1..], generation) + (if requests[i] == generation then 1 else 0)
         == Current(requests, generation)
  {
    var rest := requests[..i] + requests[i + 1..];
    if i == 0 {
      assert rest == requests[1..];
    } else {
      CurrentRemove(requests[1..], i - 1, generation);
      assert rest[1..] == requests[1..][..i - 1] + requests[1..][i..];
    }
  }

  /** After a pause bumps the generation no request in flight is current. */
  lemma {:induction false} NoneCurrent(requests: seq<nat>, generation: nat)
    requires forall i :: 0 <= i < |requests| ==> requests[i] < generation
    ensures Current(requests, generation) == 0
  {
    if requests != [] {
      NoneCurrent(requests[1..], generation);
    }
  }

  lemma ConnectKeeps(s: State)
    requires StatusTells(s) && NoneAhead(s) && (Live(s) ==> Attempts(s) == 0) && !s.stopped && !s.paused && !s.refused
    requires !s.store.status.Paused? && !s.store.status.Open?
    ensures Invariant(Connect(s))
  {
    CurrentAppend(s.requests, s.generation, s.generation);
  }

  lemma AnsweredKeeps(s: State, request: nat, ok: bool)
    requires Invariant(s) && request < |s.requests|
    ensures Invariant(Answered(s, request, ok))
  {
    CurrentRemove(s.requests, request, s.generation);
    if !s.stopped && s.requests[request] == s.generation {
      assert Attempts(s) >= 1;
      assert Live(s);
    }
  }

  lemma PauseKeeps(s: State)
    requires Invariant(s) && s.timers.pause
    ensures Invariant(PauseNow(s))
  {
    NoneCurrent(s.requests, s.generation + 1);
  }

  lemma ShowKeeps(s: State)
    requires Invariant(s)
    ensures Invariant(Step(s, Show))
  {
    if !s.stopped && s.paused {
      CurrentAppend(s.requests, s.generation, s.generation);
    }
  }

  lemma SocketKeeps(s: State, e: Event)
    requires Invariant(s) && (e.SocketOpened? || e.HelloCame? || e.SocketClosed? || e.StableFired?)
    ensures Invariant(Step(s, e))
  {
    hide Current;
  }

  lemma ReconnectKeeps(s: State)
    requires Invariant(s) && s.timers.reconnect
    ensures Invariant(Step(s, ReconnectFired))
  {
    hide Current;
    ConnectKeeps(s.(timers := s.timers.(reconnect := false)));
  }

  lemma StepKeeps(s: State, e: Event)
    requires Invariant(s)
    ensures Invariant(Step(s, e))
  {
    hide Current;
    match e
    case TicketAnswered(request, ok) =>
      if request < |s.requests| {
        AnsweredKeeps(s, request, ok);
      }
    case ReconnectFired =>
      if s.timers.reconnect {
        ReconnectKeeps(s);
      }
    case PauseFired =>
      if s.timers.pause {
        PauseKeeps(s);
      }
    case Show => ShowKeeps(s);
    case Hide =>
    case Stop =>
    case _ => SocketKeeps(s, e);
  }

  /**
   In every reachable state that is neither paused, stopped nor refused exactly one
   attempt is under way; otherwise none can open a socket. The status and the counts
   say so: open only with a socket, failed cycles equal to the retries, polling
   exactly while degraded.
   */
  lemma {:induction false} EveryRunHasOneConnection(events: seq<Event>)
    ensures Invariant(Run(events))
  {
    if events == [] {
      CurrentAppend([], 0, 0);
      assert [] + [0] == [0];
    } else {
      EveryRunHasOneConnection(events[..|events| - 1]);
      StepKeeps(Run(events[..|events| - 1]), events[|events| - 1]);
    }
  }

  ghost predicate Quiet(s: State) {
    s.stopped && s.socket.None? && s.timers == NO_TIMERS && s.store.status.Closed?
  }

  lemma StepStaysQuiet(s: State, e: Event)
    requires Quiet(s)
    ensures Quiet(Step(s, e))
  {
  }

  /** After a stop no answer, timer or frame opens anything again. */
  lemma {:induction false} StopIsFinal(before: seq<Event>, more: seq<Event>)
    requires Run(before).stopped
    ensures Quiet(Run(before + more))
  {
    hide Step, Quiet, OneConnection, StatusTells;
    if more == [] {
      assert before + more == before;
      EveryRunHasOneConnection(before);
      StoppedIsQuiet(Run(before));
    } else {
      var front, e := more[..|more| - 1], more[|more| - 1];
      StopIsFinal(before, front);
      var all := before + more;
      assert all[..|all| - 1] == before + front && all[|all| - 1] == e;
      StepStaysQuiet(Run(before + front), e);
    }
  }

  lemma StoppedIsQuiet(s: State)
    requires Invariant(s) && s.stopped
    ensures Quiet(s)
  {
    hide NoneAhead;
  }

  /**
   A tab hidden long enough lets go of everything and keeps no attempt under way. Shown
   again it asks for one fresh ticket, and that is its one attempt.
   */
  lemma {:induction false} AHiddenTabLetsGoAndReturns(events: seq<Event>)
    requires Live(Run(events))
    ensures var gone := Step(Step(Run(events), Hide), PauseFired);
            && gone.paused && gone.store == Store(Paused, 0) && gone.socket.None? && gone.timers == NO_TIMERS
            && gone.generation == Run(events).generation + 1 && Attempts(gone) == 0
    ensures var gone := Step(Step(Run(events), Hide), PauseFired);
            var back := Step(gone, Show);
            && Live(back) && Attempts(back) == 1 && back.requests == gone.requests + [back.generation]
  {
    hide Run, Current;
    EveryRunHasOneConnection(events);
    var s := Run(events);
    NoneCurrent(s.requests, s.generation + 1);
    CurrentAppend(s.requests, s.generation + 1, s.generation + 1);
  }

  lemma StepNeverRejuvenates(s: State, e: Event)
    ensures s.generation <= Step(s, e).generation
  {
  }

  lemma {:induction false} GenerationNeverGoesBack(before: seq<Event>, more: seq<Event>)
    ensures Run(before).generation <= Run(before + more).generation
  {
    hide Step;
    if more == [] {
      assert before + more == before;
    } else {
      var front, e := more[..|more| - 1], more[|more| - 1];
      GenerationNeverGoesBack(before, front);
      var all := before + more;
      assert all[..|all| - 1] == before + front;
      StepNeverRejuvenates(Run(before + front), e);
    }
  }

  /** The answer to a request changes nothing but that it is no longer awaited. */
  ghost predicate OnlyAnswered(s: State, request: nat, ok: bool)
    requires request < |s.requests|
  {
    Step(s, TicketAnswered(request, ok)) == s.(requests := s.requests[..request] + s.requests[request + 1..])
  }

  /**
   However long after a pause, a ticket asked for before it opens no socket and counts as
   no failure when it is answered at last.
   */
  lemma {:induction false} TicketsFromBeforeAPauseDoNothing(
      before: seq<Event>, more: seq<Event>, request: nat, ok: bool)
    requires var s := Run(before); s.timers.pause && !s.stopped && !s.paused
    requires var t := Run(before + [PauseFired] + more);
             request < |t.requests| && t.requests[request] <= Run(before).generation
    ensures OnlyAnswered(Run(before + [PauseFired] + more), request, ok)
  {
    var paused := before + [PauseFired];
    assert paused[..|before|] == before;
    assert Run(paused) == Step(Run(before), PauseFired);
    GenerationNeverGoesBack(paused, more);
  }

  /** After a stop no ticket does anything when it is answered, whenever it was asked for. */
  lemma {:induction false} TicketsAfterAStopDoNothing(before: seq<Event>, more: seq<Event>, request: nat, ok: bool)
    requires Run(before).stopped && request < |Run(before + more).requests|
    ensures OnlyAnswered(Run(before + more), request, ok)
  {
    hide Run;
    StopIsFinal(before, more);
  }

  // ------------------------------------------------------------ the life of a connection

  /** What a connection is doing; exactly one at any time. */
  datatype Phase = Asking | Holding | Waiting | LetGo | TurnedAway | Over

  /**
   What has happened to a connection, with no timer, count of the store or generation:
   whether the tab is hidden and not yet let go, the drops in a row, and of the socket
   held whether it opened, is still to be found stable, and has settled.
   */
  datatype Life = Life(phase: Phase, hidden: bool, drops: nat, isUp: bool, stableDue: bool, settled: bool)

  /** The answer to the ticket request made last, with no pause since. */
  predicate IsCurrent(s: State, e: Event) {
    e.TicketAnswered? && e.request < |s.requests| && s.requests[e.request] == s.generation
  }

  predicate IsOfTheSocket(s: State, e: Event) {
    (e.SocketOpened? || e.HelloCame? || e.SocketClosed?) && s.socket == Some(e.id)
  }

  function DroppedOnce(l: Life): Life {
    l.(phase := Waiting, drops := l.drops + 1)
  }

  /** A socket that has said hello or stayed open counts as connected: drops are counted anew. */
  function SettledNow(l: Life): Life {
    l.(settled := true, stableDue := false, drops := 0)
  }

  /** What happens to the socket held. */
  function LivedWithASocket(l: Life, e: Event): Life {
    match e
    case SocketOpened(_) => l.(isUp := true, stableDue := true)
    case HelloCame(_) => SettledNow(l)
    case SocketClosed(_, unauthenticated) => if unauthenticated then l.(phase := TurnedAway) else DroppedOnce(l)
    case StableFired => if l.stableDue then SettledNow(l) else l
    case _ => l
  }

  /** One event of a life; the state says only which request and which socket the event is about. */
  function Lived(l: Life, s: State, e: Event): Life {
    if l.phase.Over? then l
    else if e.Stop? then l.(phase := Over, hidden := false)
    else if e.Hide? then l.(hidden := l.hidden || !l.phase.LetGo?)
    else if e.Show? then l.(hidden := false, phase := if l.phase.LetGo? then Asking else l.phase)
    else if e.PauseFired? then if l.hidden then Life(LetGo, false, 0, false, false, false) else l
    else
      match l.phase
      case Asking =>
        if !IsCurrent(s, e) then l
        else if !e.ok then DroppedOnce(l)
        else l.(phase := Holding, isUp := false, stableDue := false, settled := false)
      case Waiting => if e.ReconnectFired? then l.(phase := Asking) else l
      case Holding => if e.StableFired? || IsOfTheSocket(s, e) then LivedWithASocket(l, e) else l
      case _ => l
  }

  function LifeOf(events: seq<Event>): Life {
    if events == [] then Life(Asking, false, 0, false, false, false)
    else
      var front := events[..|events| - 1];
      Lived(LifeOf(front), Run(front), events[|events| - 1])
  }

  /** What the status store says of a life. */
  function StatusOf(l: Life): Status {
    match l.phase
    case Over => Closed
    case TurnedAway => Closed
    case LetGo => Paused
    case _ => if l.phase.Holding? && l.settled then Open else if l.drops >= 2 then Degraded else Connecting
  }

  /** Every field of the connection is what its life says; of a stopped one, that nothing runs any more. */
  ghost predicate Shows(s: State, l: Life) {
    && s.stopped == l.phase.Over?
    && s.socket.Some? == l.phase.Holding?
    && s.timers == Timers(l.phase.Waiting?, !l.phase.Over? && l.drops >= 2, l.phase.Holding? && l.isUp,
                          l.phase.Holding? && l.stableDue, l.hidden)
    && s.store == Store(StatusOf(l), if l.phase.Over? || l.phase.TurnedAway? then 0 else l.drops)
    && (!s.stopped ==>
          && s.paused == l.phase.LetGo? && s.refused == l.phase.TurnedAway? && s.failures == l.drops
          && Current(s.requests, s.generation) == if l.phase.Asking? then 1 else 0)
    && (l.hidden ==> !l.phase.Over? && !l.phase.LetGo?)
    && (l.phase.LetGo? ==> l.drops == 0)
  }

  lemma TicketLives(s: State, l: Life, request: nat, ok: bool)
    requires Shows(s, l) && request < |s.requests|
    ensures Shows(Step(s, TicketAnswered(request, ok)), Lived(l, s, TicketAnswered(request, ok)))
  {
    CurrentRemove(s.requests, request, s.generation);
  }

  lemma PauseLives(s: State, l: Life)
    requires Shows(s, l) && NoneAhead(s)
    ensures Shows(Step(s, PauseFired), Lived(l, s, PauseFired))
  {
    NoneCurrent(s.requests, s.generation + 1);
  }

  lemma StepLives(s: State, l: Life, e: Event)
    requires Shows(s, l) && NoneAhead(s)
    ensures Shows(Step(s, e), Lived(l, s, e))
  {
    hide Current, Shows, Step, Lived;
    match e
    case TicketAnswered(request, ok) =>
      if request < |s.requests| {
        TicketLives(s, l, request, ok);
      } else {
        OutsideLives(s, l, e);
      }
    case PauseFired => PauseLives(s, l);
    case ReconnectFired => ConnectingLives(s, l, e);
    case Show => ConnectingLives(s, l, e);
    case Hide => OutsideLives(s, l, e);
    case Stop => OutsideLives(s, l, e);
    case SocketOpened(_) => SocketLives(s, l, e);
    case SocketClosed(_, _) => SocketLives(s, l, e);
    case _ => SettlingKeepsLife(s, l, e);
  }

  lemma ConnectingLives(s: State, l: Life, e: Event)
    requires Shows(s, l) && (e.ReconnectFired? || e.Show?)
    ensures Shows(Step(s, e), Lived(l, s, e))
  {
    hide Current;
    CurrentAppend(s.requests, s.generation, s.generation);
  }

  lemma OutsideLives(s: State, l: Life, e: Event)
    requires Shows(s, l) && (e.Hide? || e.Stop? || (e.TicketAnswered? && e.request >= |s.requests|))
    ensures Shows(Step(s, e), Lived(l, s, e))
  {
    hide Current;
  }

  lemma SocketLives(s: State, l: Life, e: Event)
    requires Shows(s, l) && (e.SocketOpened? || e.SocketClosed?)
    ensures Shows(Step(s, e), Lived(l, s, e))
  {
    hide Current;
  }

  lemma SettlingKeepsLife(s: State, l: Life, e: Event)
    requires Shows(s, l) && (e.HelloCame? || e.StableFired?)
    ensures Shows(Step(s, e), Lived(l, s, e))
  {
    hide Current;
  }

  /**
   Over every run the socket, the timers, the backoff and the status store are what the
   connection's life says: a timer runs exactly for what is due, the channel is degraded and
   polls exactly from the second drop in a row on, and the store says open exactly of a
   socket that has settled.
   */
  lemma {:induction false} EveryRunShowsItsLife(events: seq<Event>)
    ensures Shows(Run(events), LifeOf(events))
  {
    if events == [] {
      CurrentAppend([], 0, 0);
      assert [] + [0] == [0];
    } else {
      hide Step, Shows, Lived;
      var front := events[..|events| - 1];
      EveryRunShowsItsLife(front);
      EveryRunHasOneConnection(front);
      StepLives(Run(front), LifeOf(front), events[|events| - 1]);
    }
  }

  // ------------------------------------------------------------ a socket that counts as connected

  /** The k-th event is a hello on the socket held, or finds that socket stable. */
  ghost predicate SettlesAt(events: seq<Event>, k: nat)
    requires k < |events|
  {
    var s := Run(events[..k]);
    s.socket.Some? && (events[k] == HelloCame(s.socket.value) || (events[k].StableFired? && s.timers.stable))
  }

  ghost predicate HeldSince(events: seq<Event>, k: nat)
    requires k <= |events|
  {
    forall j :: k <= j <= |events| ==> Run(events[..j]).socket.Some? && Run(events[..j]).socket == Run(events).socket
  }

  /** A hello came on the socket that is held, or it was found stable, since it was opened. */
  ghost predicate HasSettled(events: seq<Event>) {
    exists k :: 0 <= k < |events| && SettlesAt(events, k) && HeldSince(events, k)
  }

  lemma HasSettledMore(front: seq<Event>, e: Event)
    ensures var events := front + [e];
            HasSettled(events) <==>
              && Run(front).socket.Some? && Run(events).socket == Run(front).socket
              && (HasSettled(front) || SettlesAt(events, |front|))
  {
    hide Run, SettlesAt;
    var events := front + [e];
    assert events[..|front|] == front && events[..|events|] == events && front[..|front|] == front;
    assert forall j :: 0 <= j <= |front| ==> events[..j] == front[..j];
    assert forall k :: 0 <= k < |front| ==> (SettlesAt(events, k) <==> SettlesAt(front, k)) by {
      forall k | 0 <= k < |front|
        ensures SettlesAt(events, k) <==> SettlesAt(front, k)
      {
        SettlesTheSame(front, e, k);
      }
    }
    if HasSettled(events) {
      var k :| 0 <= k < |events| && SettlesAt(events, k) && HeldSince(events, k);
      assert Run(events[..|front|]).socket == Run(events).socket;
      if k < |front| {
        assert HeldSince(front, k);
      }
    }
    if Run(front).socket.Some? && Run(events).socket == Run(front).socket {
      if HasSettled(front) {
        var k :| 0 <= k < |front| && SettlesAt(front, k) && HeldSince(front, k);
        assert HeldSince(events, k);
      }
      if SettlesAt(events, |front|) {
        assert HeldSince(events, |front|);
      }
    }
  }

  lemma SettlesTheSame(front: seq<Event>, e: Event, k: nat)
    requires k < |front|
    ensures SettlesAt(front + [e], k) <==> SettlesAt(front, k)
  {
    hide Run;
    assert (front + [e])[..k] == front[..k] && (front + [e])[k] == front[k];
  }

  /** A life notes that the socket held settled when it does, and forgets it with the socket. */
  lemma SettlingLives(s: State, l: Life, e: Event)
    requires Shows(s, l) && NoneAhead(s)
    ensures var t, m := Step(s, e), Lived(l, s, e);
            m.phase.Holding? && m.settled <==>
              && s.socket.Some? && t.socket == s.socket
              && (l.settled || e == HelloCame(s.socket.value) || (e.StableFired? && s.timers.stable))
  {
    hide Current;
    StepLives(s, l, e);
    if e.TicketAnswered? && e.request < |s.requests| {
      CurrentRemove(s.requests, e.request, s.generation);
    }
  }

  lemma {:induction false} LifeSettlesWhenTheSocketDoes(events: seq<Event>)
    ensures LifeOf(events).phase.Holding? && LifeOf(events).settled <==> HasSettled(events)
  {
    if events != [] {
      hide Step, Lived, Shows, HasSettled;
      var front, e := events[..|events| - 1], events[|events| - 1];
      assert events == front + [e] && events[..|front|] == front;
      LifeSettlesWhenTheSocketDoes(front);
      EveryRunShowsItsLife(front);
      EveryRunHasOneConnection(front);
      SettlingLives(Run(front), LifeOf(front), e);
      HasSettledMore(front, e);
      HoldingIsShown(Run(front), LifeOf(front));
    }
  }

  lemma HoldingIsShown(s: State, l: Life)
    requires Shows(s, l)
    ensures s.socket.Some? <==> l.phase.Holding?
    ensures l.phase.Holding? ==> (s.store.status.Open? <==> l.settled)
    ensures !l.phase.Holding? ==> !s.store.status.Open?
  {
  }

  /**
   Over every run the status is open exactly when a hello came on the socket that is held, or
   it was found stable, since it was opened; then no drop is counted and nothing polls.
   */
  lemma {:induction false} OpenExactlyWhenTheSocketSettled(events: seq<Event>)
    ensures var s := Run(events);
            && (s.store.status.Open? <==> HasSettled(events))
            && (HasSettled(events) ==> s.failures == 0 && s.store.failedCycles == 0 && !s.timers.poll)
  {
    hide Run, LifeOf, HasSettled, Current;
    LifeSettlesWhenTheSocketDoes(events);
    EveryRunShowsItsLife(events);
    SettledHasNoDrops(events);
  }

  lemma {:induction false} SettledHasNoDrops(events: seq<Event>)
    ensures var l := LifeOf(events); l.phase.Holding? && l.settled ==> l.drops == 0
  {
    hide Run, Lived;
    if events != [] {
      var front := events[..|events| - 1];
      SettledHasNoDrops(front);
      LivedHasNoDrops(LifeOf(front), Run(front), events[|events| - 1]);
    }
  }

  lemma LivedHasNoDrops(l: Life, s: State, e: Event)
    requires l.phase.Holding? && l.settled ==> l.drops == 0
    ensures var m := Lived(l, s, e); m.phase.Holding? && m.settled ==> m.drops == 0
  {
  }

  // ------------------------------------------------------------ the handlers

  class Link {
    var socket: Option<nat>
    var sockets: nat
    var requests: seq<nat>
    var timers: Timers
    var failures: nat
    var stopped: bool
    var paused: bool
    var generation: nat
    ghost var refused: bool
    var store: Store

    ghost function View(): State
      reads this
    {
      State(socket, sockets, requests, timers, failures, stopped, paused, generation, refused, store)
    }

    constructor ()
      ensures View() == Run([])
    {
      socket, sockets, requests, timers := None, 0, [], NO_TIMERS;
      failures, stopped, paused, generation, refused := 0, false, false, 0, false;
      store := Store(Closed, 0);
      new;
      StartConnecting();
    }

    method StartConnecting()
      modifies this`store, this`requests
      ensures View() == Connect(old(View()))
    {
      if stopped || paused {
        return;
      }
      if failures == 0 {
        store := store.(status := Connecting);
      }
      requests := requests + [generation];
    }

    method ScheduleAgain()
      requires !stopped
      modifies this`failures, this`timers, this`store
      ensures View() == ScheduleReconnect(old(View()))
    {
      failures := failures + 1;
      store := store.(failedCycles := store.failedCycles + 1);
      if store.failedCycles > 1 {
        store := store.(status := Degraded);
        timers := timers.(poll := true);
      } else {
        store := store.(status := Connecting);
      }
      timers := timers.(reconnect := true);
    }

    method SettleDown()
      modifies this`timers, this`failures, this`store
      ensures View() == Settle(old(View()))
    {
      timers := timers.(stable := false);
      if failures == 0 && store.status.Open? {
        return;
      }
      failures := 0;
      store := Store(Open, 0);
      timers := timers.(poll := false);
    }

    method LetGo()
      modifies this`timers, this`socket
      ensures timers == Quiesced(old(timers)) && socket.None?
    {
      timers := timers.(ping := false);
      timers := timers.(reconnect := false);
      timers := timers.(stable := false);
      timers := timers.(poll := false);
      socket := None;
    }

    method OnTicket(request: nat, ok: bool)
      requires request < |requests|
      modifies this
      ensures View() == Step(old(View()), TicketAnswered(request, ok))
    {
      var began := requests[request];
      requests := requests[..request] + requests[request + 1..];
      if stopped || began != generation {
        return;
      }
      if !ok {
        ScheduleAgain();
        return;
      }
      socket := Some(sockets);
      sockets := sockets + 1;
    }

    method OnOpen(id: nat)
      modifies this
      ensures View() == Step(old(View()), SocketOpened(id))
    {
      if stopped || socket != Some(id) {
        return;
      }
      timers := timers.(ping := true);
      timers := timers.(stable := true);
    }

    method OnHello(id: nat)
      modifies this
      ensures View() == Step(old(View()), HelloCame(id))
    {
      if !stopped && socket == Some(id) {
        SettleDown();
      }
    }

    method OnClose(id: nat, unauthenticated: bool)
      modifies this
      ensures View() == Step(old(View()), SocketClosed(id, unauthenticated))
    {
      if stopped || socket != Some(id) {
        return;
      }
      timers := timers.(ping := false);
      timers := timers.(stable := false);
      socket := None;
      if unauthenticated {
        store := Store(Closed, 0);
        refused := true;
        return;
      }
      ScheduleAgain();
    }

    method OnStable()
      requires timers.stable
      modifies this
      ensures View() == Step(old(View()), StableFired)
    {
      SettleDown();
    }

    method OnReconnect()
      requires timers.reconnect
      modifies this
      ensures View() == Step(old(View()), ReconnectFired)
    {
      timers := timers.(reconnect := false);
      StartConnecting();
    }

    method OnPause()
      requires timers.pause
      modifies this
      ensures View() == Step(old(View()), PauseFired)
    {
      timers := timers.(pause := false);
      if stopped || paused {
        return;
      }
      paused := true;
      generation := generation + 1;
      failures := 0;
      refused := false;
      LetGo();
      store := Store(Paused, 0);
    }

    method OnHide()
      modifies this
      ensures View() == Step(old(View()), Hide)
    {
      if stopped || paused || timers.pause {
        return;
      }
      timers := timers.(pause := true);
    }

    method OnShow()
      modifies this
      ensures View() == Step(old(View()), Show)
    {
      timers := timers.(pause := false);
      if stopped || !paused {
        return;
      }
      paused := false;
      StartConnecting();
    }

    method OnStop()
      modifies this
      ensures View() == Step(old(View()), Stop)
    {
      if stopped {
        return;
      }
      stopped := true;
      timers := timers.(pause := false);
      LetGo();
      store := Store(Closed, 0);
    }
  }
}
