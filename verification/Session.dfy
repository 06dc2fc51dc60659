/**
 The session a tab holds: refusals of it, the switch that hands it over for another, and
 what is cached under it (`apps/portal/src/app/forgetAuthSession.ts`,
 `apps/portal/src/app/switchOrg.ts`, `apps/portal/src/app/adoptAuthSession.ts`).
 */
module Session {
  import opened Options

  /** A session being handed over, and whether it was refused meanwhile. */
  datatype Handover = Handover(token: Option<string>, refused: bool)

  /**
   A call under way and the session it was issued under. A query's read is written into
   the cache by the query, and goes when the cache is cleared; a write's answer is written
   by whoever made it (`own`), whatever was cleared meanwhile.
   */
  datatype Call = Call(session: string, own: bool)

  /**
   Every hold ever taken, and which one is current. `cached` is the sessions some answer
   in the query cache was issued under, and `channels` the sessions whose realtime channel
   is not stopped yet.
   */
  datatype State = State(
    token: Option<string>, cached: set<string>, calls: seq<Call>, channels: set<string>,
    holds: seq<Handover>, current: Option<nat>)

  datatype Event =
    | SignIn(issued: string)
    | SignOut
    | CallIssued(own: bool)
    | CallLands(call: nat)
    | CallDropped(call: nat)
    | ChannelOpens
    | ChannelStops(session: string)
    | ApiRefusal(named: string)
    | SocketRefusal(named: string)
    | SwitchStarts
    | SwitchAnswers(hold: nat, issued: string)
    | SwitchFails(hold: nat, unauthorized: bool)

  const INITIAL := State(None, {}, [], {}, [], None)

  /** The calls a cleared cache leaves: those whose caller writes the answer. */
  function OwnCalls(calls: seq<Call>): seq<Call> {
    if calls == [] then []
    else
      var front, last := OwnCalls(calls[..|calls| - 1]), calls[|calls| - 1];
      if last.own then front + [last] else front
  }

  function Forgotten(s: State): State {
    s.(token := None, cached := {}, calls := OwnCalls(s.calls))
  }

  function Adopted(s: State, issued: string): State {
    s.(token := Some(issued), cached := {}, calls := OwnCalls(s.calls))
  }

  function Released(s: State, hold: nat): State {
    if s.current == Some(hold) then s.(current := None) else s
  }

  predicate IsHandedOver(s: State, named: string) {
    s.current.Some? && s.current.value < |s.holds| && s.holds[s.current.value].token == Some(named)
  }

  /** A refusal that reached the tab: noted when its session is handed over, acted on when it is held, else dropped. */
  function Refused(s: State, named: string): State {
    if IsHandedOver(s, named) then s.(holds := s.holds[s.current.value := s.holds[s.current.value].(refused := true)])
    else if s.token == Some(named) then Forgotten(s)
    else s
  }

  /**
   The refusal reaches the tab. The client lets a 401 through only when the session it was
   presented with is still the one held; a socket's 4401 comes through its channel, until
   that is stopped.
   */
  predicate Reaches(s: State, e: Event, named: string) {
    || (e == ApiRefusal(named) && s.token == Some(named))
    || (e == SocketRefusal(named) && named in s.channels)
  }

  function Without(calls: seq<Call>, k: nat): seq<Call>
    requires k < |calls|
  {
    calls[..k] + calls[k + 1..]
  }

  function Step(s: State, e: Event): State {
    match e
    case SignIn(issued) => Adopted(s, issued)
    case SignOut => Forgotten(s)
    case CallIssued(own) => if s.token.Some? then s.(calls := s.calls + [Call(s.token.value, own)]) else s
    case CallLands(k) =>
      if k < |s.calls| then s.(cached := s.cached + {s.calls[k].session}, calls := Without(s.calls, k)) else s
    case CallDropped(k) => if k < |s.calls| then s.(calls := Without(s.calls, k)) else s
    case ChannelOpens => if s.token.Some? then s.(channels := s.channels + {s.token.value}) else s
    case ChannelStops(session) => s.(channels := s.channels - {session})
    case ApiRefusal(named) => if Reaches(s, e, named) then Refused(s, named) else s
    case SocketRefusal(named) => if Reaches(s, e, named) then Refused(s, named) else s
    case SwitchStarts => s.(holds := s.holds + [Handover(s.token, false)], current := Some(|s.holds|))
    case SwitchAnswers(hold, issued) => if hold < |s.holds| then Released(Adopted(s, issued), hold) else s
    case SwitchFails(hold, unauthorized) =>
      if hold >= |s.holds| then s
      else
        var released := Released(s, hold);
        if s.holds[hold].refused || unauthorized then Forgotten(released) else released
  }

  function RunFrom(s: State, events: seq<Event>): State {
    if events == [] then s
    else Step(RunFrom(s, events[..|events| - 1]), events[|events| - 1])
  }

  function Run(events: seq<Event>): State {
    RunFrom(INITIAL, events)
  }

  // ------------------------------------------------------------ one switch

  /** What comes while one switch waits, or after it: refusals, late or not, calls, and channels opened and stopped. */
  predicate IsPassing(e: Event) {
    !e.SignIn? && !e.SignOut? && !e.SwitchStarts? && !e.SwitchAnswers? && !e.SwitchFails?
  }

  ghost predicate OnlyPassing(events: seq<Event>) {
    forall k :: 0 <= k < |events| ==> IsPassing(events[k])
  }

  /** Some refusal naming the session reaches the tab over a stretch. */
  predicate IsRefused(s: State, events: seq<Event>, named: string) {
    events != [] &&
    var front, e := events[..|events| - 1], events[|events| - 1];
    IsRefused(s, front, named) || Reaches(RunFrom(s, front), e, named)
  }

  /** While a switch waits, the tab holds the session it held, whatever is refused; a refusal of it is noted. */
  lemma {:induction false} HeldWhileWaiting(s: State, token: string, events: seq<Event>)
    requires s.token == Some(token) && OnlyPassing(events)
    ensures var hold, begun := |s.holds|, Step(s, SwitchStarts);
            var t := RunFrom(begun, events);
            && t.token == Some(token) && t.current == Some(hold)
            && t.holds == s.holds + [Handover(Some(token), IsRefused(begun, events, token))]
  {
    hide OwnCalls, Without;
    if events != [] {
      var front := events[..|events| - 1];
      assert forall k :: 0 <= k < |front| ==> front[k] == events[k];
      HeldWhileWaiting(s, token, front);
      assert IsPassing(events[|events| - 1]);
    }
  }

  /** No moment of a stretch passes with the tab holding no session. */
  ghost predicate AlwaysSignedIn(s: State, events: seq<Event>) {
    forall k :: 0 <= k <= |events| ==> RunFrom(s, events[..k]).token.Some?
  }

  lemma WaitingIsSignedIn(s: State, token: string, events: seq<Event>)
    requires s.token == Some(token) && OnlyPassing(events)
    ensures AlwaysSignedIn(Step(s, SwitchStarts), events)
  {
    hide RunFrom, IsRefused;
    forall k | 0 <= k <= |events|
      ensures RunFrom(Step(s, SwitchStarts), events[..k]).token.Some?
    {
      HeldWhileWaiting(s, token, events[..k]);
    }
  }

  lemma {:induction false} NotRefusedBefore(s: State, events: seq<Event>, named: string, k: nat)
    requires k <= |events| && !IsRefused(s, events, named)
    ensures !IsRefused(s, events[..k], named)
  {
    hide RunFrom, Reaches;
    if k == |events| {
      assert events[..k] == events;
    } else {
      var front := events[..|events| - 1];
      NotRefusedBefore(s, front, named, k);
      assert front[..k] == events[..k];
    }
  }

  /**
   Whatever refusals arrive while the exchange runs, a switch that is answered ends
   with the tab holding the issued session, with no moment of holding none and nothing
   left handed over; later refusals of any other session say nothing.
   */
  lemma {:induction false} ASwitchThatAnswersEndsSignedIn(
      s: State, previous: string, issued: string, waiting: seq<Event>, late: seq<Event>)
    requires s.token == Some(previous) && OnlyPassing(waiting) && OnlyPassing(late)
    requires !IsRefused(Step(RunFrom(Step(s, SwitchStarts), waiting), SwitchAnswers(|s.holds|, issued)), late, issued)
    ensures AlwaysSignedIn(Step(s, SwitchStarts), waiting)
    ensures var switched := Step(RunFrom(Step(s, SwitchStarts), waiting), SwitchAnswers(|s.holds|, issued));
            && switched.token == Some(issued) && switched.current.None? && switched.cached == {}
            && AlwaysSignedIn(switched, late) && RunFrom(switched, late).token == Some(issued)
  {
    hide RunFrom, IsRefused, OwnCalls;
    WaitingIsSignedIn(s, previous, waiting);
    HeldWhileWaiting(s, previous, waiting);
    var switched := Step(RunFrom(Step(s, SwitchStarts), waiting), SwitchAnswers(|s.holds|, issued));
    forall k | 0 <= k <= |late|
      ensures RunFrom(switched, late[..k]).token == Some(issued)
    {
      assert forall j :: 0 <= j < k ==> late[..k][j] == late[j];
      NotRefusedBefore(switched, late, issued, k);
      RefusalsOfOthersSayNothing(switched, issued, late[..k]);
    }
    assert late[..|late|] == late;
  }

  lemma {:induction false} RefusalsOfOthersSayNothing(s: State, token: string, events: seq<Event>)
    requires s.token == Some(token) && s.current.None? && OnlyPassing(events) && !IsRefused(s, events, token)
    ensures RunFrom(s, events).token == Some(token) && RunFrom(s, events).current.None?
  {
    hide OwnCalls, Without;
    if events != [] {
      var front := events[..|events| - 1];
      assert forall k :: 0 <= k < |front| ==> front[k] == events[k];
      RefusalsOfOthersSayNothing(s, token, front);
      assert IsPassing(events[|events| - 1]);
    }
  }

  /**
   A switch that fails leaves the tab holding what it held exactly when no refusal of
   that session reached it meanwhile and the exchange was not itself refused; else signed out.
   */
  lemma {:induction false} AFailedSwitchKeepsTheSessionExactlyWhen(
      s: State, token: string, waiting: seq<Event>, unauthorized: bool)
    requires s.token == Some(token) && OnlyPassing(waiting)
    ensures var begun := Step(s, SwitchStarts);
            var failed := Step(RunFrom(begun, waiting), SwitchFails(|s.holds|, unauthorized));
            && failed.current.None?
            && failed.token == (if IsRefused(begun, waiting, token) || unauthorized then None else Some(token))
  {
    hide RunFrom, IsRefused, OwnCalls;
    HeldWhileWaiting(s, token, waiting);
  }

  // ------------------------------------------------------------ every interleaving

  /** A hold that notes a refusal was current when a refusal naming its session reached the tab. */
  ghost predicate WasRefusedWhileCurrent(events: seq<Event>, hold: nat) {
    exists k :: 0 <= k < |events| && RefusedAt(events, k, hold)
  }

  ghost predicate RefusedAt(events: seq<Event>, k: nat, hold: nat)
    requires k < |events|
  {
    var s, e := Run(events[..k]), events[k];
    && (e.ApiRefusal? || e.SocketRefusal?) && Reaches(s, e, e.named)
    && s.current == Some(hold) && IsHandedOver(s, e.named)
  }

  lemma RefusedEarlier(events: seq<Event>, e: Event, hold: nat)
    requires WasRefusedWhileCurrent(events, hold)
    ensures WasRefusedWhileCurrent(events + [e], hold)
  {
    var k :| 0 <= k < |events| && RefusedAt(events, k, hold);
    assert (events + [e])[..k] == events[..k];
    assert RefusedAt(events + [e], k, hold);
  }

  /** How many switches were begun. */
  function CountBegun(events: seq<Event>): nat {
    if events == [] then 0
    else CountBegun(events[..|events| - 1]) + if events[|events| - 1].SwitchStarts? then 1 else 0
  }

  predicate Ends(e: Event, hold: int) {
    (e.SwitchAnswers? || e.SwitchFails?) && e.hold == hold
  }

  /** The switch begun last has neither been answered nor failed. */
  predicate IsOut(events: seq<Event>) {
    events != [] &&
    var front, e := events[..|events| - 1], events[|events| - 1];
    e.SwitchStarts? || (IsOut(front) && !Ends(e, CountBegun(front) - 1))
  }

  /** Only a refusal can be earned by the last event: of the session handed over by a hold that is current. */
  lemma EarnedByTheLast(events: seq<Event>, e: Event, hold: nat)
    ensures WasRefusedWhileCurrent(events + [e], hold) <==>
              || WasRefusedWhileCurrent(events, hold)
              || (&& (e.ApiRefusal? || e.SocketRefusal?) && Reaches(Run(events), e, e.named)
                  && Run(events).current == Some(hold) && IsHandedOver(Run(events), e.named))
  {
    hide Run, IsHandedOver, Reaches;
    var more := events + [e];
    assert more[..|events|] == events && more[|events|] == e;
    if WasRefusedWhileCurrent(events, hold) {
      RefusedEarlier(events, e, hold);
    }
    if WasRefusedWhileCurrent(more, hold) {
      var k :| 0 <= k < |more| && RefusedAt(more, k, hold);
      if k < |events| {
        assert more[..k] == events[..k];
        assert RefusedAt(events, k, hold);
      }
    }
    if RefusedAt(more, |events|, hold) {
      assert WasRefusedWhileCurrent(more, hold);
    }
  }

  /** The hold handed over is the last one taken, until it ends; each notes exactly the refusals it was current for. */
  ghost predicate HoldsTell(events: seq<Event>) {
    var s := Run(events);
    && |s.holds| == CountBegun(events)
    && (IsOut(events) ==> |s.holds| > 0)
    && s.current == (if IsOut(events) then Some(|s.holds| - 1) else None)
    && forall hold: nat ::
         if hold < |s.holds| then s.holds[hold].refused == WasRefusedWhileCurrent(events, hold)
         else !WasRefusedWhileCurrent(events, hold)
  }

  lemma RunMore(events: seq<Event>, e: Event)
    ensures Run(events + [e]) == Step(Run(events), e)
  {
    assert (events + [e])[..|events|] == events;
  }

  lemma OutMore(events: seq<Event>, e: Event)
    ensures CountBegun(events + [e]) == CountBegun(events) + if e.SwitchStarts? then 1 else 0
    ensures IsOut(events + [e]) <==> e.SwitchStarts? || (IsOut(events) && !Ends(e, CountBegun(events) - 1))
  {
    assert (events + [e])[..|events|] == events;
  }

  lemma StepTells(events: seq<Event>, e: Event)
    requires HoldsTell(events)
    ensures HoldsTell(events + [e])
  {
    hide Run, WasRefusedWhileCurrent, OwnCalls, Without, IsOut, CountBegun;
    RunMore(events, e);
    OutMore(events, e);
    forall hold: nat
      ensures WasRefusedWhileCurrent(events + [e], hold) <==>
                || WasRefusedWhileCurrent(events, hold)
                || (&& (e.ApiRefusal? || e.SocketRefusal?) && Reaches(Run(events), e, e.named)
                    && Run(events).current == Some(hold) && IsHandedOver(Run(events), e.named))
    {
      EarnedByTheLast(events, e, hold);
    }
  }

  /**
   Over every interleaving of any number of switches the hold handed over is the one taken last,
   until that one ends, whatever other ends; and a hold notes a refusal exactly when one naming
   its session reached the tab while it was current.
   */
  lemma {:induction false} EveryRunTellsItsHolds(events: seq<Event>)
    ensures HoldsTell(events)
  {
    hide HoldsTell;
    if events == [] {
      NothingHeld();
    } else {
      var front, e := events[..|events| - 1], events[|events| - 1];
      EveryRunTellsItsHolds(front);
      StepTells(front, e);
      assert front + [e] == events;
    }
  }

  lemma NothingHeld()
    ensures HoldsTell([])
  {
  }

  /** The event signs the tab out of the session it holds. */
  predicate SignsOut(s: State, e: Event) {
    s.token.Some? && Step(s, e).token.None?
  }

  /** The session handed over by the switch that is out, if one is. */
  ghost predicate IsBeingSwitched(events: seq<Event>, named: string) {
    IsOut(events) && CountBegun(events) > 0 && |Run(events).holds| == CountBegun(events)
    && Run(events).holds[CountBegun(events) - 1].token == Some(named)
  }

  /** What signs a tab out: the person, a refusal that acts, or a failed switch whose session was refused. */
  ghost predicate HasCauseToSignOut(events: seq<Event>, e: Event) {
    match e
    case SignOut => true
    case ApiRefusal(named) => Run(events).token == Some(named) && !IsBeingSwitched(events, named)
    case SocketRefusal(named) =>
      Run(events).token == Some(named) && named in Run(events).channels && !IsBeingSwitched(events, named)
    case SwitchFails(hold, unauthorized) =>
      hold < CountBegun(events) && (unauthorized || WasRefusedWhileCurrent(events, hold))
    case _ => false
  }

  /**
   In every interleaving of sign-ins, refusals and any number of switches, a tab that holds a
   session is signed out exactly by the person, by a refusal naming the session it holds while
   that is not handed over, or by a failed switch whose session was refused while it was.
   */
  lemma {:induction false} SignedOutExactlyForARefusal(events: seq<Event>, e: Event)
    ensures SignsOut(Run(events), e) <==> Run(events).token.Some? && HasCauseToSignOut(events, e)
  {
    hide Run, WasRefusedWhileCurrent, OwnCalls, Without, IsOut, CountBegun;
    EveryRunTellsItsHolds(events);
  }

  /** The session taken up last, unless the tab was signed out since. */
  ghost function TakenUpLast(events: seq<Event>): Option<string> {
    if events == [] then None
    else
      var front, e := events[..|events| - 1], events[|events| - 1];
      if e.SignIn? || (e.SwitchAnswers? && e.hold < CountBegun(front)) then Some(e.issued)
      else if HasCauseToSignOut(front, e) then None
      else TakenUpLast(front)
  }

  /** Over every interleaving the tab holds the session it took up last, until something signs it out. */
  lemma {:induction false} TheTabHoldsWhatItTookUpLast(events: seq<Event>)
    ensures Run(events).token == TakenUpLast(events)
  {
    if events != [] {
      hide HasCauseToSignOut, OwnCalls, Without, CountBegun;
      var front, e := events[..|events| - 1], events[|events| - 1];
      TheTabHoldsWhatItTookUpLast(front);
      SignedOutExactlyForARefusal(front, e);
      EveryRunTellsItsHolds(front);
      TokenAfter(Run(front), e);
      NothingToSignOut(front, e);
    }
  }

  lemma TokenAfter(s: State, e: Event)
    ensures var t := Step(s, e);
            || t.token == s.token || t.token.None?
            || (e.SignIn? && t.token == Some(e.issued)) || (e.SwitchAnswers? && t.token == Some(e.issued))
    ensures e.SignIn? || (e.SwitchAnswers? && e.hold < |s.holds|) ==> Step(s, e).token == Some(e.issued)
    ensures e.SwitchAnswers? && e.hold >= |s.holds| ==> Step(s, e) == s
  {
    hide OwnCalls, Without;
  }

  lemma NothingToSignOut(events: seq<Event>, e: Event)
    ensures Run(events).token.None? && !e.SignIn? && !e.SwitchAnswers? ==> Step(Run(events), e).token.None?
  {
    hide Run, OwnCalls, Without;
  }

  /**
   A failed switch forgets whatever session the tab holds by then. Refused while it was
   held, the old session costs the tab the one it was signed in to anew; and so does an
   exchange refused after that sign-in.
   */
  lemma AFailedSwitchForgetsANewerSession(s: State, before: string, newer: string)
    requires s.token == Some(before) && newer != before
    ensures var refused := Step(Step(Step(s, SwitchStarts), ApiRefusal(before)), SignIn(newer));
            refused.token == Some(newer) && Step(refused, SwitchFails(|s.holds|, false)).token == None
    ensures var anew := Step(Step(s, SwitchStarts), SignIn(newer));
            anew.token == Some(newer) && Step(anew, SwitchFails(|s.holds|, true)).token == None
  {
  }

  /** A 401 to a call made under a session the tab no longer holds reaches nobody. */
  lemma ALateApiRefusalSaysNothing(s: State, named: string)
    requires s.token != Some(named)
    ensures Step(s, ApiRefusal(named)) == s
  {
  }

  /** What reaches the tab while a switch waits, sign-ins on it included, but no other switch. */
  ghost predicate NoOtherSwitch(events: seq<Event>) {
    forall k :: 0 <= k < |events| ==> !events[k].SwitchStarts? && !events[k].SwitchAnswers? && !events[k].SwitchFails?
  }

  lemma {:induction false} HoldStays(s: State, events: seq<Event>)
    requires NoOtherSwitch(events)
    ensures var hold, begun := |s.holds|, Step(s, SwitchStarts);
            var t := RunFrom(begun, events);
            && t.current == Some(hold) && |t.holds| == hold + 1 && t.holds[hold].token == s.token
            && (t.holds[hold].refused <==> s.token.Some? && IsRefused(begun, events, s.token.value))
  {
    hide OwnCalls, Without;
    if events != [] {
      var front := events[..|events| - 1];
      assert forall k :: 0 <= k < |front| ==> front[k] == events[k];
      HoldStays(s, front);
    }
  }

  /**
   Whatever else happens on the tab while a switch waits, its failure signs the tab out
   of the session it then holds exactly when a refusal of the session it handed over
   reached the tab meanwhile, or the exchange itself was refused.
   */
  lemma {:induction false} AFailureSignsOutExactlyWhenTheHeldWasRefused(
      s: State, waiting: seq<Event>, unauthorized: bool)
    requires NoOtherSwitch(waiting)
    ensures var begun := Step(s, SwitchStarts);
            var t := RunFrom(begun, waiting);
            t.token.Some? ==>
              (SignsOut(t, SwitchFails(|s.holds|, unauthorized))
               <==> unauthorized || (s.token.Some? && IsRefused(begun, waiting, s.token.value)))
  {
    hide RunFrom, IsRefused, OwnCalls;
    HoldStays(s, waiting);
  }

  // ------------------------------------------------------------ what is cached

  /** The event forgets the session or takes up another. */
  predicate Clears(s: State, e: Event) {
    match e
    case SignIn(_) => true
    case SignOut => true
    case ApiRefusal(named) => Reaches(s, e, named) && !IsHandedOver(s, named)
    case SocketRefusal(named) => Reaches(s, e, named) && !IsHandedOver(s, named) && s.token == Some(named)
    case SwitchAnswers(hold, _) => hold < |s.holds|
    case SwitchFails(hold, unauthorized) => hold < |s.holds| && (s.holds[hold].refused || unauthorized)
    case _ => false
  }

  lemma {:induction false} OwnCallsAreOwn(calls: seq<Call>)
    ensures forall call :: call in OwnCalls(calls) <==> call in calls && call.own
  {
    if calls != [] {
      var front, last := calls[..|calls| - 1], calls[|calls| - 1];
      OwnCallsAreOwn(front);
      assert calls == front + [last];
    }
  }

  /** Forgetting a session and taking up another leave nothing cached, and no query's read under way. */
  lemma ClearingLeavesNothing(s: State, e: Event)
    requires Clears(s, e)
    ensures Step(s, e).cached == {} && forall call :: call in Step(s, e).calls ==> call.own
  {
    hide OwnCalls, Without;
    OwnCallsAreOwn(s.calls);
  }

  /** The session held changes in no other way. */
  lemma OnlyClearingChangesTheSession(s: State, e: Event)
    requires !Clears(s, e)
    ensures Step(s, e).token == s.token
  {
    hide OwnCalls, Without;
  }

  lemma {:induction false} WithoutKeeps(calls: seq<Call>, k: nat)
    requires k < |calls|
    ensures forall call :: call in Without(calls, k) ==> call in calls
  {
  }

  /** A query's read under way was always issued under the session held. */
  ghost predicate QueriesAreOfTheSession(s: State) {
    forall call :: call in s.calls && !call.own ==> s.token == Some(call.session)
  }

  lemma StepKeepsQueries(s: State, e: Event)
    requires QueriesAreOfTheSession(s)
    ensures QueriesAreOfTheSession(Step(s, e))
  {
    hide OwnCalls, Without;
    if Clears(s, e) {
      ClearingLeavesNothing(s, e);
    } else {
      OnlyClearingChangesTheSession(s, e);
      if e.CallLands? && e.call < |s.calls| {
        WithoutKeeps(s.calls, e.call);
      } else if e.CallDropped? && e.call < |s.calls| {
        WithoutKeeps(s.calls, e.call);
      }
    }
  }

  /** Over every run, no query's read outlives the session it was issued under. */
  lemma {:induction false} NoQueryOutlivesItsSession(events: seq<Event>)
    ensures QueriesAreOfTheSession(Run(events))
  {
    hide Step;
    if events != [] {
      NoQueryOutlivesItsSession(events[..|events| - 1]);
      StepKeepsQueries(Run(events[..|events| - 1]), events[|events| - 1]);
    }
  }

  /** A call made by its own caller lands under another session than the one it was issued under. */
  predicate LandsAstray(s: State, e: Event) {
    e.CallLands? && e.call < |s.calls| && s.calls[e.call].own && s.token != Some(s.calls[e.call].session)
  }

  /** Such a call landed after the session was last forgotten or another taken up. */
  predicate AstraySinceCleared(events: seq<Event>) {
    events != [] &&
    var before, e := Run(events[..|events| - 1]), events[|events| - 1];
    !Clears(before, e) && (AstraySinceCleared(events[..|events| - 1]) || LandsAstray(before, e))
  }

  /** Some answer in the cache was issued under a session other than the one held. */
  ghost predicate CachedAstray(s: State) {
    exists session :: session in s.cached && s.token != Some(session)
  }

  lemma StepCachesAstray(s: State, e: Event)
    requires QueriesAreOfTheSession(s)
    ensures CachedAstray(Step(s, e)) <==> !Clears(s, e) && (CachedAstray(s) || LandsAstray(s, e))
  {
    hide OwnCalls, Without;
    var t := Step(s, e);
    if Clears(s, e) {
      ClearingLeavesNothing(s, e);
    } else {
      OnlyClearingChangesTheSession(s, e);
      if CachedAstray(s) {
        var session :| session in s.cached && s.token != Some(session);
        assert session in t.cached;
      } else if LandsAstray(s, e) {
        assert s.calls[e.call].session in t.cached;
      } else if e.CallLands? && e.call < |s.calls| {
        assert s.calls[e.call] in s.calls;
      }
    }
  }

  /**
   Over every run, an answer of another session than the one held is cached exactly when
   a call whose caller writes its answer, issued under another session, landed since the
   session was last forgotten or another taken up.
   */
  lemma {:induction false} AnswersOfAnotherSessionAreCachedExactlyWhen(events: seq<Event>)
    ensures CachedAstray(Run(events)) <==> AstraySinceCleared(events)
  {
    hide Step, CachedAstray, Clears, LandsAstray;
    if events == [] {
      NothingCached();
    } else {
      var front, e := events[..|events| - 1], events[|events| - 1];
      AnswersOfAnotherSessionAreCachedExactlyWhen(front);
      NoQueryOutlivesItsSession(front);
      StepCachesAstray(Run(front), e);
    }
  }

  /** An answer to a call of this session landed since the session was last forgotten or another taken up. */
  predicate LandedSinceCleared(events: seq<Event>, session: string) {
    events != [] &&
    var front, e := events[..|events| - 1], events[|events| - 1];
    var s := Run(front);
    && !Clears(s, e)
    && (LandedSinceCleared(front, session)
        || (e.CallLands? && e.call < |s.calls| && s.calls[e.call].session == session))
  }

  lemma StepCaches(s: State, e: Event, session: string)
    ensures session in Step(s, e).cached <==>
              && !Clears(s, e)
              && (session in s.cached || (e.CallLands? && e.call < |s.calls| && s.calls[e.call].session == session))
  {
    hide OwnCalls, Without;
    if Clears(s, e) {
      ClearingLeavesNothing(s, e);
    }
  }

  /** Over every run the cache holds an answer of a session exactly when a call of that session landed since. */
  lemma {:induction false} AnAnswerIsCachedExactlyWhen(events: seq<Event>, session: string)
    ensures session in Run(events).cached <==> LandedSinceCleared(events, session)
  {
    hide Step, Clears;
    if events != [] {
      var front, e := events[..|events| - 1], events[|events| - 1];
      AnAnswerIsCachedExactlyWhen(front, session);
      StepCaches(Run(front), e, session);
    }
  }

  /** How many calls of a kind are under way: issued under the session held then, and not landed, dropped or cleared. */
  function CountUnderWay(events: seq<Event>, call: Call): int {
    if events == [] then 0
    else
      var front, e := events[..|events| - 1], events[|events| - 1];
      var s, before := Run(front), CountUnderWay(front, call);
      if Clears(s, e) && !call.own then 0
      else if e.CallIssued? && s.token == Some(call.session) && e.own == call.own then before + 1
      else if (e.CallLands? || e.CallDropped?) && e.call < |s.calls| && s.calls[e.call] == call then before - 1
      else before
  }

  lemma {:induction false} OwnCallsCounted(calls: seq<Call>, call: Call)
    ensures multiset(OwnCalls(calls))[call] == if call.own then multiset(calls)[call] else 0
  {
    if calls != [] {
      var front, last := calls[..|calls| - 1], calls[|calls| - 1];
      OwnCallsCounted(front, call);
      assert calls == front + [last];
    }
  }

  lemma WithoutCounted(calls: seq<Call>, k: nat, call: Call)
    requires k < |calls|
    ensures multiset(Without(calls, k))[call] == multiset(calls)[call] - if calls[k] == call then 1 else 0
  {
    assert calls == calls[..k] + [calls[k]] + calls[k + 1..];
  }

  lemma StepCounts(s: State, e: Event, call: Call)
    ensures var before, after := multiset(s.calls)[call], multiset(Step(s, e).calls)[call];
            after == if Clears(s, e) && !call.own then 0
                     else if e.CallIssued? && s.token == Some(call.session) && e.own == call.own then before + 1
                     else if (e.CallLands? || e.CallDropped?) && e.call < |s.calls| && s.calls[e.call] == call
                     then before - 1
                     else before
  {
    hide OwnCalls, Without;
    OwnCallsCounted(s.calls, call);
    match e
    case CallLands(k) =>
      if k < |s.calls| {
        WithoutCounted(s.calls, k, call);
      }
    case CallDropped(k) =>
      if k < |s.calls| {
        WithoutCounted(s.calls, k, call);
      }
    case _ =>
  }

  /** Over every run the calls under way are those, each under the session it was issued under. */
  lemma {:induction false} CallsUnderWayAreThoseIssued(events: seq<Event>, call: Call)
    ensures multiset(Run(events).calls)[call] == CountUnderWay(events, call)
  {
    hide Step, Clears;
    if events != [] {
      var front, e := events[..|events| - 1], events[|events| - 1];
      CallsUnderWayAreThoseIssued(front, call);
      StepCounts(Run(front), e, call);
    }
  }

  lemma NothingCached()
    ensures !CachedAstray(Run([]))
  {
  }

  /** A write answered after the tab took up another session is cached under that one. */
  lemma AWriteCanLandInTheNextSession(session: string, next: string)
    requires session != next
    ensures var s := Run([SignIn(session), CallIssued(true), SignIn(next), CallLands(0)]);
            s.token == Some(next) && session in s.cached
  {
    var s1 := Step(INITIAL, SignIn(session));
    var s2 := Step(s1, CallIssued(true));
    assert s2.calls == [Call(session, true)];
    var s3 := Step(s2, SignIn(next));
    assert OwnCalls([]) == [] && [Call(session, true)][..0] == [];
    assert s3.calls == [Call(session, true)];
    var events := [SignIn(session), CallIssued(true), SignIn(next), CallLands(0)];
    assert events[..3][..2][..1] == [SignIn(session)] && events[..3][..2] == [SignIn(session), CallIssued(true)];
    assert Run([]) == INITIAL && [SignIn(session)][..0] == [];
    assert Run([SignIn(session)]) == s1;
    assert Run(events[..3][..2]) == s2;
    assert Run(events[..3]) == s3;
  }

  /** A channel was opened under this session and not stopped since. */
  ghost predicate IsListening(events: seq<Event>, session: string) {
    events != [] &&
    var front, e := events[..|events| - 1], events[|events| - 1];
    || (e.ChannelOpens? && TakenUpLast(front) == Some(session))
    || (IsListening(front, session) && e != ChannelStops(session))
  }

  /** A socket's refusal of a session reaches the tab exactly while a channel opened under it is not stopped. */
  lemma {:induction false} ARefusalIsHeardExactlyWhileListening(events: seq<Event>, session: string)
    ensures Reaches(Run(events), SocketRefusal(session), session) <==> IsListening(events, session)
  {
    if events != [] {
      hide TakenUpLast, OwnCalls, Without, Refused;
      var front := events[..|events| - 1];
      ARefusalIsHeardExactlyWhileListening(front, session);
      TheTabHoldsWhatItTookUpLast(front);
      RefusingLeavesChannels(Run(front), events[|events| - 1]);
    }
  }

  lemma RefusingLeavesChannels(s: State, e: Event)
    ensures e.ApiRefusal? || e.SocketRefusal? ==> Step(s, e).channels == s.channels
  {
    hide OwnCalls;
  }

  // ------------------------------------------------------------ the tab itself

  /** A session the tab is handing over; the flag is written through whoever still points at it. */
  class Hold {
    const token: Option<string>
    var refused: bool

    constructor (token: Option<string>)
      ensures this.token == token && !refused
    {
      this.token, refused := token, false;
    }
  }

  class Tab {
    var token: Option<string>
    var handover: Hold?
    var channels: set<string>
    // What the query cache holds, and what is under way to it.
    var cached: set<string>
    var calls: seq<Call>
    ghost var holds: seq<Hold>

    ghost predicate Valid()
      reads this
    {
      && (forall i, j :: 0 <= i < j < |holds| ==> holds[i] != holds[j])
      && (handover != null ==> handover in holds)
    }

    ghost function View(): State
      requires Valid()
      reads this, holds
    {
      State(token, cached, calls, channels, HoldsOf(holds),
            if handover == null then None else Some(IndexOf(holds, handover)))
    }

    constructor ()
      ensures Valid() && View() == INITIAL && holds == []
    {
      token, cached, calls, channels, handover, holds := None, {}, [], {}, null, [];
    }

    /** The cache is cleared, and with it every query's read. */
    method ClearCache()
      modifies this`cached, this`calls
      ensures cached == {} && calls == OwnCalls(old(calls))
    {
      cached := {};
      var left: seq<Call> := [];
      for i := 0 to |calls|
        invariant left == OwnCalls(calls[..i]) && calls == old(calls) && cached == {}
      {
        assert calls[..i + 1][..i] == calls[..i];
        if calls[i].own {
          left := left + [calls[i]];
        }
      }
      assert calls[..|calls|] == calls;
      calls := left;
    }

    method Forget()
      requires Valid()
      modifies this`token, this`cached, this`calls
      ensures Valid() && View() == Step(old(View()), SignOut)
    {
      token := None;
      ClearCache();
    }

    method Adopt(issued: string)
      requires Valid()
      modifies this`token, this`cached, this`calls
      ensures Valid() && View() == Step(old(View()), SignIn(issued))
    {
      ClearCache();
      token := Some(issued);
    }

    method ForgetIfHeld(named: string)
      requires Valid()
      modifies this`token, this`cached, this`calls, if handover == null then {} else {handover}
      ensures Valid() && View() == Refused(old(View()), named)
    {
      if handover != null {
        HoldAt(holds, handover);
        if handover.token == Some(named) {
          handover.refused := true;
          assert View().holds == old(View()).holds[IndexOf(holds, handover) := Handover(handover.token, true)];
          return;
        }
      }
      if token == Some(named) {
        Forget();
      }
    }

    /** A 401 from the API acts only when it answers the session still held. */
    method OnUnauthorized(named: string)
      requires Valid()
      modifies this`token, this`cached, this`calls, if handover == null then {} else {handover}
      ensures Valid() && View() == Step(old(View()), ApiRefusal(named))
    {
      if token == Some(named) {
        ForgetIfHeld(named);
      }
    }

    /** A 4401 close of the realtime socket, heard while its channel is not stopped. */
    method OnUnauthenticated(named: string)
      requires Valid()
      modifies this`token, this`cached, this`calls, if handover == null then {} else {handover}
      ensures Valid() && View() == Step(old(View()), SocketRefusal(named))
    {
      if named in channels {
        ForgetIfHeld(named);
      }
    }

    method OnCallLands(k: nat)
      requires Valid() && k < |calls|
      modifies this`cached, this`calls
      ensures Valid() && View() == Step(old(View()), CallLands(k))
    {
      cached := cached + {calls[k].session};
      calls := calls[..k] + calls[k + 1..];
    }

    method TakeHold() returns (hold: Hold)
      requires Valid()
      modifies this`handover, this`holds
      ensures Valid() && fresh(hold) && holds == old(holds) + [hold]
      ensures View() == Step(old(View()), SwitchStarts)
    {
      hold := new Hold(token);
      handover := hold;
      holds := holds + [hold];
      HoldAt(holds, hold);
      assert View().holds == old(View()).holds + [Handover(token, false)];
    }

    method Release(hold: Hold) returns (refused: bool)
      requires Valid() && hold in holds
      modifies this`handover
      ensures Valid() && refused == hold.refused
      ensures View() == Released(old(View()), IndexOf(holds, hold))
    {
      HoldAt(holds, hold);
      if handover != null {
        HoldAt(holds, handover);
      }
      if handover == hold {
        handover := null;
      }
      refused := hold.refused;
    }

    /** The exchange answered: the issued session is taken up before the hold ends. */
    method Switched(hold: Hold, issued: string)
      requires Valid() && hold in holds
      modifies this`token, this`cached, this`calls, this`handover
      ensures Valid() && View() == Step(old(View()), SwitchAnswers(IndexOf(holds, hold), issued))
    {
      HoldAt(holds, hold);
      Adopt(issued);
      var refused := Release(hold);
    }

    /** The exchange failed: signed out when the held session is gone, else left where it was. */
    method SwitchFailed(hold: Hold, unauthorized: bool) returns (signedOut: bool)
      requires Valid() && hold in holds
      modifies this`token, this`cached, this`calls, this`handover
      ensures Valid() && View() == Step(old(View()), SwitchFails(IndexOf(holds, hold), unauthorized))
      ensures signedOut == (hold.refused || unauthorized)
    {
      HoldAt(holds, hold);
      var refused := Release(hold);
      signedOut := refused || unauthorized;
      if signedOut {
        Forget();
      }
    }
  }

  ghost function HoldsOf(holds: seq<Hold>): (r: seq<Handover>)
    reads holds
    ensures |r| == |holds|
  {
    seq(|holds|, i requires 0 <= i < |holds| reads holds => Handover(holds[i].token, holds[i].refused))
  }

  ghost function IndexOf(holds: seq<Hold>, hold: Hold): nat {
    if holds == [] || holds[|holds| - 1] == hold then |holds| - (if holds == [] then 0 else 1)
    else IndexOf(holds[..|holds| - 1], hold)
  }

  lemma {:induction false} HoldAt(holds: seq<Hold>, hold: Hold)
    requires hold in holds && forall i, j :: 0 <= i < j < |holds| ==> holds[i] != holds[j]
    ensures IndexOf(holds, hold) < |holds| && holds[IndexOf(holds, hold)] == hold
    ensures forall i :: 0 <= i < |holds| && holds[i] == hold ==> i == IndexOf(holds, hold)
  {
    if holds[|holds| - 1] != hold {
      var front := holds[..|holds| - 1];
      assert holds == front + [holds[|holds| - 1]];
      HoldAt(front, hold);
    }
  }
}
