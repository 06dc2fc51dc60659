/**
 The hint reader: gathers pushes into windows and answers each window with reads of
 single records or one read of the collections (`apps/portal/src/realtime/hints.ts`).
 */
module Hints {
  import opened Options

  const HINT_WINDOW_MS := 100
  const HINT_WINDOW_MAX_MS := 500
  const HINT_BURST := 20

  /** A push about one record, with the version its change wrote when it names one. */
  datatype Push = Push(id: string, version: Option<nat>)

  /** What the reader hears and what it asks of the effects, in order. */
  datatype Act =
    | Heard(push: Push)
    | HeldAlready(id: string, version: nat)
    | ReadIssued(id: string, since: nat)
    | CollectionsRead
    | Placed(id: string, since: nat)
    | TakenOut(id: string, since: nat)

  datatype Answer = Record | NotThere | Failed

  /** The reads of one window, under way until every one is back. */
  datatype Batch = Batch(ids: seq<string>, since: nat, settled: bool)

  /** The timers by when they are due. `window`, `openedAt` and `lastNewAt` are the history of the open window. */
  datatype State = State(
    gathered: seq<Push>, quiet: Option<nat>, longest: Option<nat>, stopped: bool, batches: seq<Batch>,
    log: seq<Act>, window: seq<Push>, openedAt: nat, lastNewAt: nat)

  datatype Event =
    | Hint(push: Push, at: nat)
    | TimerFires(at: nat, held: map<string, nat>, stamp: nat)
    | Answered(batch: nat, answers: seq<Answer>)
    | Stop

  const INITIAL := State([], None, None, false, [], [], [], 0, 0)

  /** Nothing named settles it: then only a read can tell. */
  function Join(a: Option<nat>, b: Option<nat>): Option<nat> {
    if a.None? || b.None? then None else Some(if a.value > b.value then a.value else b.value)
  }

  predicate Names(pushes: seq<Push>, id: string) {
    exists p :: p in pushes && p.id == id
  }

  function Gather(gathered: seq<Push>, push: Push): seq<Push> {
    if gathered == [] then [push]
    else if gathered[0].id == push.id then [Push(push.id, Join(gathered[0].version, push.version))] + gathered[1..]
    else [gathered[0]] + Gather(gathered[1..], push)
  }

  function GatherAll(pushes: seq<Push>): seq<Push> {
    if pushes == [] then [] else Gather(GatherAll(pushes[..|pushes| - 1]), pushes[|pushes| - 1])
  }

  predicate IsHeld(push: Push, held: map<string, nat>) {
    push.version.Some? && push.id in held && held[push.id] >= push.version.value
  }

  function Unheld(gathered: seq<Push>, held: map<string, nat>): (r: seq<Push>)
    ensures |r| <= |gathered|
  {
    if gathered == [] then []
    else
      var front, last := Unheld(gathered[..|gathered| - 1], held), gathered[|gathered| - 1];
      if IsHeld(last, held) then front else front + [last]
  }

  function HeldActs(gathered: seq<Push>, held: map<string, nat>): seq<Act> {
    if gathered == [] then []
    else
      var front, last := HeldActs(gathered[..|gathered| - 1], held), gathered[|gathered| - 1];
      if IsHeld(last, held) then front + [HeldAlready(last.id, last.version.value)] else front
  }

  function IdsOf(pushes: seq<Push>): (r: seq<string>)
    ensures |r| == |pushes|
  {
    seq(|pushes|, i requires 0 <= i < |pushes| => pushes[i].id)
  }

  function Reads(ids: seq<string>, since: nat): (r: seq<Act>)
    ensures |r| == |ids|
  {
    seq(|ids|, i requires 0 <= i < |ids| => ReadIssued(ids[i], since))
  }

  function Close(s: State): State {
    s.(gathered := [], quiet := None, longest := None, window := [])
  }

  function Flush(s: State, held: map<string, nat>, stamp: nat): State {
    var closed := Close(s);
    if s.stopped then closed
    else
      var batch, log := Unheld(s.gathered, held), s.log + HeldActs(s.gathered, held);
      if batch == [] then closed.(log := log)
      else if |batch| > HINT_BURST then closed.(log := log + [CollectionsRead])
      else
        closed.(batches := s.batches + [Batch(IdsOf(batch), stamp, false)], log := log + Reads(IdsOf(batch), stamp))
  }

  function Settle(ids: seq<string>, answers: seq<Answer>, since: nat): seq<Act>
    requires |ids| == |answers|
  {
    if ids == [] then []
    else
      var front, last := Settle(ids[..|ids| - 1], answers[..|ids| - 1], since), |ids| - 1;
      match answers[last]
      case Record => front + [Placed(ids[last], since)]
      case NotThere => front + [TakenOut(ids[last], since)]
      case Failed => front
  }

  function Step(s: State, e: Event): State {
    match e
    case Hint(push, at) =>
      if s.stopped then s
      else
        var heard :=
          s.(gathered := Gather(s.gathered, push), window := s.window + [push], log := s.log + [Heard(push)]);
        if Names(s.gathered, push.id) then heard
        else
          heard.(quiet := Some(at + HINT_WINDOW_MS), lastNewAt := at,
                 longest := if s.longest.Some? then s.longest else Some(at + HINT_WINDOW_MAX_MS),
                 openedAt := if s.longest.Some? then s.openedAt else at)
    case TimerFires(at, held, stamp) =>
      if (s.quiet.Some? && s.quiet.value <= at) || (s.longest.Some? && s.longest.value <= at)
      then Flush(s, held, stamp) else s
    case Answered(k, answers) =>
      if s.stopped || k >= |s.batches| || s.batches[k].settled || |answers| != |s.batches[k].ids| then s
      else
        var batch := s.batches[k];
        s.(batches := s.batches[k := batch.(settled := true)],
           log := s.log + Settle(batch.ids, answers, batch.since) + if Failed in answers then [CollectionsRead] else [])
    case Stop => Close(s).(stopped := true)
  }

  function Run(events: seq<Event>): State {
    if events == [] then INITIAL
    else Step(Run(events[..|events| - 1]), events[|events| - 1])
  }

  // ------------------------------------------------------------ gathering

  ghost predicate DistinctIds(pushes: seq<Push>) {
    forall i, j :: 0 <= i < j < |pushes| ==> pushes[i].id != pushes[j].id
  }

  /** A version standing for all the pushes about a record: none once a push named none, else the newest named. */
  ghost predicate StandsFor(version: Option<nat>, pushes: seq<Push>, id: string) {
    && (version.None? <==> exists p :: p in pushes && p.id == id && p.version.None?)
    && (version.Some? ==>
          && (forall p :: p in pushes && p.id == id ==> p.version.Some? && p.version.value <= version.value)
          && (exists p :: p in pushes && p.id == id && p.version == version))
  }

  /**
   What a gathered list says of every record: it is there when named, once, with the version
   standing for its pushes.
   */
  ghost predicate Summarises(gathered: seq<Push>, pushes: seq<Push>) {
    && DistinctIds(gathered)
    && (forall id :: Names(gathered, id) <==> Names(pushes, id))
    && (forall g :: g in gathered ==> StandsFor(g.version, pushes, g.id))
  }

  lemma {:induction false} GatherHolds(gathered: seq<Push>, push: Push)
    requires DistinctIds(gathered)
    ensures var r := Gather(gathered, push);
            && DistinctIds(r)
            && (forall g :: g in r && g.id != push.id <==> g in gathered && g.id != push.id)
            && (forall g :: g in r && g.id == push.id ==>
                  if Names(gathered, push.id)
                  then exists h :: h in gathered && h.id == push.id && g.version == Join(h.version, push.version)
                  else g == push)
            && Names(r, push.id)
  {
    hide Join, Names;
    var r := Gather(gathered, push);
    if gathered == [] {
      NamesNone(push.id);
      NamesOne(r, push);
    } else if gathered[0].id == push.id {
      NamesOne(gathered, gathered[0]);
      NamesOne(r, r[0]);
      assert forall g :: g in gathered <==> g == gathered[0] || g in gathered[1..];
      assert forall g :: g in r <==> g == r[0] || g in gathered[1..];
      assert forall g :: g in gathered[1..] ==> g.id != push.id;
    } else {
      GatherHolds(gathered[1..], push);
      var rest := Gather(gathered[1..], push);
      assert forall g :: g in gathered <==> g == gathered[0] || g in gathered[1..];
      assert forall g :: g in r <==> g == gathered[0] || g in rest;
      NamesTail(gathered, push.id);
      NamesTail(r, push.id);
      forall j | 0 <= j < |rest|
        ensures rest[j].id != gathered[0].id
      {
        assert rest[j] in rest;
      }
    }
  }

  lemma NamesNone(id: string)
    ensures !Names([], id)
  {
  }

  lemma NamesOne(pushes: seq<Push>, p: Push)
    requires p in pushes
    ensures Names(pushes, p.id)
  {
  }

  lemma NamesTail(pushes: seq<Push>, id: string)
    requires pushes != [] && pushes[0].id != id
    ensures Names(pushes, id) <==> Names(pushes[1..], id)
  {
    assert forall p :: p in pushes <==> p == pushes[0] || p in pushes[1..];
  }

  lemma NamesMore(pushes: seq<Push>, push: Push, id: string)
    ensures Names(pushes + [push], id) <==> Names(pushes, id) || push.id == id
  {
    assert push in pushes + [push];
    assert forall p :: p in pushes + [push] <==> p in pushes || p == push;
  }

  lemma StandsForOne(pushes: seq<Push>, push: Push)
    requires !Names(pushes, push.id)
    ensures StandsFor(push.version, pushes + [push], push.id)
  {
    assert push in pushes + [push];
    assert forall p :: p in pushes + [push] && p.id == push.id ==> p == push;
  }

  lemma StandsForJoined(version: Option<nat>, pushes: seq<Push>, push: Push)
    requires StandsFor(version, pushes, push.id)
    ensures StandsFor(Join(version, push.version), pushes + [push], push.id)
  {
    var more := pushes + [push];
    assert push in more && forall p :: p in more <==> p in pushes || p == push;
    if version.None? {
      var p :| p in pushes && p.id == push.id && p.version.None?;
      assert p in more;
    } else {
      var p :| p in pushes && p.id == push.id && p.version == version;
      assert p in more;
    }
  }

  lemma StandsForOther(version: Option<nat>, pushes: seq<Push>, push: Push, id: string)
    requires StandsFor(version, pushes, id) && push.id != id
    ensures StandsFor(version, pushes + [push], id)
  {
    var more := pushes + [push];
    assert forall p :: p in more && p.id == id <==> p in pushes && p.id == id;
    if version.None? {
      var p :| p in pushes && p.id == id && p.version.None?;
      assert p in more;
    } else {
      var p :| p in pushes && p.id == id && p.version == version;
      assert p in more;
    }
  }

  lemma GatherSummarises(gathered: seq<Push>, pushes: seq<Push>, push: Push)
    requires Summarises(gathered, pushes)
    ensures Summarises(Gather(gathered, push), pushes + [push])
  {
    hide Gather, Join, StandsFor, DistinctIds;
    GatherHolds(gathered, push);
    var r := Gather(gathered, push);
    forall g | g in r
      ensures StandsFor(g.version, pushes + [push], g.id)
    {
      if g.id != push.id {
        StandsForOther(g.version, pushes, push, g.id);
      } else if Names(gathered, push.id) {
        var h :| h in gathered && h.id == push.id && g.version == Join(h.version, push.version);
        StandsForJoined(h.version, pushes, push);
      } else {
        assert !Names(pushes, push.id);
        StandsForOne(pushes, push);
      }
    }
    forall id
      ensures Names(r, id) <==> Names(pushes + [push], id)
    {
      NamesMore(pushes, push, id);
      if id != push.id {
        assert Names(r, id) <==> Names(gathered, id);
      }
    }
  }

  /** A window's gathered records summarise its pushes. */
  lemma {:induction false} GatheringSummarises(pushes: seq<Push>)
    ensures Summarises(GatherAll(pushes), pushes)
  {
    hide Gather, Summarises;
    if pushes == [] {
      NothingSummarised();
    } else {
      var front, last := pushes[..|pushes| - 1], pushes[|pushes| - 1];
      GatheringSummarises(front);
      GatherSummarises(GatherAll(front), front, last);
      assert pushes == front + [last];
    }
  }

  lemma NothingSummarised()
    ensures Summarises([], [])
  {
  }

  /** The version gathered for a record. */
  ghost predicate GatheredAs(pushes: seq<Push>, id: string, version: Option<nat>) {
    Push(id, version) in GatherAll(pushes)
  }

  lemma OnlyOneStands(a: Option<nat>, b: Option<nat>, pushes: seq<Push>, others: seq<Push>, id: string)
    requires StandsFor(a, pushes, id) && StandsFor(b, others, id)
    requires forall p :: p in pushes <==> p in others
    ensures a == b
  {
  }

  /** What is gathered does not depend on the order the pushes arrive in. */
  lemma GatheringIgnoresOrder(pushes: seq<Push>, others: seq<Push>, id: string, version: Option<nat>)
    requires forall p :: p in pushes <==> p in others
    ensures GatheredAs(pushes, id, version) <==> GatheredAs(others, id, version)
  {
    hide GatherAll, StandsFor;
    if GatheredAs(pushes, id, version) {
      GatheredEither(pushes, others, id, version);
    }
    if GatheredAs(others, id, version) {
      GatheredEither(others, pushes, id, version);
    }
  }

  lemma GatheredEither(pushes: seq<Push>, others: seq<Push>, id: string, version: Option<nat>)
    requires forall p :: p in pushes <==> p in others
    requires GatheredAs(pushes, id, version)
    ensures GatheredAs(others, id, version)
  {
    hide GatherAll, StandsFor;
    GatheringSummarises(pushes);
    GatheringSummarises(others);
    var p := Push(id, version);
    assert Names(GatherAll(pushes), id);
    assert Names(pushes, id);
    var q :| q in pushes && q.id == id;
    assert q in others;
    assert Names(GatherAll(others), id);
    var g :| g in GatherAll(others) && g.id == id;
    OnlyOneStands(version, g.version, pushes, others, id);
  }

  // ------------------------------------------------------------ no hint is lost

  /** The push is answered: by a read of its record, one of the collections, or a held version as new as it names. */
  predicate AnswersTo(act: Act, push: Push) {
    match act
    case ReadIssued(id, since) => id == push.id
    case CollectionsRead => true
    case HeldAlready(id, version) => id == push.id && push.version.Some? && push.version.value <= version
    case _ => false
  }

  ghost predicate AnsweredAfter(log: seq<Act>, p: nat, push: Push) {
    exists q :: p < q < |log| && AnswersTo(log[q], push)
  }

  /** Every push heard is in the open window, or was answered after it was heard. */
  ghost predicate NoneLost(s: State) {
    forall p :: 0 <= p < |s.log| && s.log[p].Heard? && !s.stopped ==>
      s.log[p].push in s.window || AnsweredAfter(s.log, p, s.log[p].push)
  }

  /** A window is open exactly while something is gathered, and then both timers run. */
  ghost predicate TimersRun(s: State) {
    && (s.gathered != [] <==> s.quiet.Some?)
    && (s.gathered != [] <==> s.longest.Some?)
    && (s.quiet.Some? ==> s.quiet.value == s.lastNewAt + HINT_WINDOW_MS)
    && (s.longest.Some? ==> s.longest.value == s.openedAt + HINT_WINDOW_MAX_MS)
  }

  ghost predicate Invariant(s: State) {
    NoneLost(s) && TimersRun(s) && s.gathered == GatherAll(s.window)
  }

  lemma AnsweredStays(log: seq<Act>, more: seq<Act>, p: nat, push: Push)
    requires AnsweredAfter(log, p, push)
    ensures AnsweredAfter(log + more, p, push)
  {
    var q :| p < q < |log| && AnswersTo(log[q], push);
    assert (log + more)[q] == log[q];
  }

  lemma AnsweredNow(log: seq<Act>, more: seq<Act>, p: nat, push: Push, act: Act)
    requires p < |log| && act in more && AnswersTo(act, push)
    ensures AnsweredAfter(log + more, p, push)
  {
    var k :| 0 <= k < |more| && more[k] == act;
    assert (log + more)[|log| + k] == act;
  }

  lemma {:induction false} HeldOrUnheld(gathered: seq<Push>, held: map<string, nat>, g: Push)
    requires g in gathered
    ensures IsHeld(g, held) ==> HeldAlready(g.id, g.version.value) in HeldActs(gathered, held)
    ensures !IsHeld(g, held) ==> g in Unheld(gathered, held)
  {
    hide IsHeld;
    var front, last := gathered[..|gathered| - 1], gathered[|gathered| - 1];
    assert gathered == front + [last];
    if g in front {
      HeldOrUnheld(front, held, g);
    }
  }

  lemma IdIsRead(batch: seq<Push>, g: Push, since: nat)
    requires g in batch
    ensures ReadIssued(g.id, since) in Reads(IdsOf(batch), since)
  {
    var i :| 0 <= i < |batch| && batch[i] == g;
    assert Reads(IdsOf(batch), since)[i] == ReadIssued(g.id, since);
  }

  /** What a flush appends to the log. */
  function FlushActs(s: State, held: map<string, nat>, stamp: nat): seq<Act> {
    var batch := Unheld(s.gathered, held);
    HeldActs(s.gathered, held) +
    if batch == [] then [] else if |batch| > HINT_BURST then [CollectionsRead] else Reads(IdsOf(batch), stamp)
  }

  lemma FlushAppends(s: State, held: map<string, nat>, stamp: nat)
    requires !s.stopped
    ensures Flush(s, held, stamp).log == s.log + FlushActs(s, held, stamp)
  {
    hide Unheld, HeldActs, Reads, IdsOf;
  }

  /** A gathered push is answered by what the flush appends. */
  lemma FlushAnswers(s: State, held: map<string, nat>, stamp: nat, push: Push)
    requires s.gathered == GatherAll(s.window) && push in s.window
    ensures exists act :: act in FlushActs(s, held, stamp) && AnswersTo(act, push)
  {
    hide Unheld, HeldActs, Reads, IdsOf, GatherAll, IsHeld;
    GatheringSummarises(s.window);
    assert Names(s.window, push.id);
    assert Names(s.gathered, push.id);
    var g :| g in s.gathered && g.id == push.id;
    assert StandsFor(g.version, s.window, g.id);
    HeldOrUnheld(s.gathered, held, g);
    if IsHeld(g, held) {
      HeldHasVersion(g, held);
      assert HeldAlready(g.id, g.version.value) in FlushActs(s, held, stamp);
    } else {
      var batch := Unheld(s.gathered, held);
      if |batch| > HINT_BURST {
        assert CollectionsRead in FlushActs(s, held, stamp);
      } else {
        IdIsRead(batch, g, stamp);
        assert ReadIssued(g.id, stamp) in FlushActs(s, held, stamp);
      }
    }
  }

  lemma HeldHasVersion(g: Push, held: map<string, nat>)
    requires IsHeld(g, held)
    ensures g.version.Some?
  {
  }

  lemma FlushLosesNone(s: State, held: map<string, nat>, stamp: nat)
    requires Invariant(s)
    ensures NoneLost(Flush(s, held, stamp))
  {
    hide FlushActs, GatherAll, TimersRun, AnsweredAfter, AnswersTo;
    if !s.stopped {
      FlushAppends(s, held, stamp);
      var more := FlushActs(s, held, stamp);
      forall p | 0 <= p < |s.log| && s.log[p].Heard?
        ensures AnsweredAfter(s.log + more, p, s.log[p].push)
      {
        var push := s.log[p].push;
        if push in s.window {
          FlushAnswers(s, held, stamp, push);
          var act :| act in more && AnswersTo(act, push);
          AnsweredNow(s.log, more, p, push, act);
        } else {
          AnsweredStays(s.log, more, p, push);
        }
      }
      FlushHearsNothing(s, held, stamp);
    }
  }

  lemma {:induction false} HeldActsHearNothing(gathered: seq<Push>, held: map<string, nat>)
    ensures forall act :: act in HeldActs(gathered, held) ==> act.HeldAlready?
  {
    if gathered != [] {
      HeldActsHearNothing(gathered[..|gathered| - 1], held);
    }
  }

  lemma FlushHearsNothing(s: State, held: map<string, nat>, stamp: nat)
    ensures forall k :: 0 <= k < |FlushActs(s, held, stamp)| ==> !FlushActs(s, held, stamp)[k].Heard?
  {
    hide HeldActs, Unheld;
    HeldActsHearNothing(s.gathered, held);
    var a := HeldActs(s.gathered, held);
    assert forall k :: 0 <= k < |a| ==> a[k] in a;
  }

  lemma {:induction false} SettleHearsNothing(ids: seq<string>, answers: seq<Answer>, since: nat)
    requires |ids| == |answers|
    ensures forall k :: 0 <= k < |Settle(ids, answers, since)| ==> !Settle(ids, answers, since)[k].Heard?
  {
    if ids != [] {
      SettleHearsNothing(ids[..|ids| - 1], answers[..|ids| - 1], since);
    }
  }

  lemma GrowingLosesNone(s: State, t: State, more: seq<Act>)
    requires NoneLost(s) && t.log == s.log + more && t.stopped == s.stopped
    requires forall push :: push in s.window ==> push in t.window
    requires forall k :: 0 <= k < |more| && more[k].Heard? ==> more[k].push in t.window
    ensures NoneLost(t)
  {
    hide AnsweredAfter;
    forall p | 0 <= p < |t.log| && t.log[p].Heard? && !t.stopped
      ensures t.log[p].push in t.window || AnsweredAfter(t.log, p, t.log[p].push)
    {
      if p < |s.log| {
        assert t.log[p] == s.log[p];
        if s.log[p].push !in s.window {
          AnsweredStays(s.log, more, p, s.log[p].push);
        }
      } else {
        assert t.log[p] == more[p - |s.log|];
      }
    }
  }

  lemma GatherIsNotEmpty(gathered: seq<Push>, push: Push)
    ensures Gather(gathered, push) != []
  {
  }

  lemma HintKeeps(s: State, push: Push, at: nat)
    requires Invariant(s)
    ensures Invariant(Step(s, Hint(push, at)))
  {
    hide GatherAll, Gather, NoneLost, Names;
    if !s.stopped {
      var t := Step(s, Hint(push, at));
      GrowingLosesNone(s, t, [Heard(push)]);
      GatherAllMore(s.window, push);
      GatherIsNotEmpty(s.gathered, push);
      if s.gathered == [] {
        GatheredNamesNone(s.gathered, push.id);
      }
    }
  }

  lemma GatheredNamesNone(gathered: seq<Push>, id: string)
    requires gathered == []
    ensures !Names(gathered, id)
  {
  }

  lemma GatherAllMore(pushes: seq<Push>, push: Push)
    ensures GatherAll(pushes + [push]) == Gather(GatherAll(pushes), push)
  {
    assert (pushes + [push])[..|pushes|] == pushes;
  }

  lemma StepKeeps(s: State, e: Event)
    requires Invariant(s)
    ensures Invariant(Step(s, e))
  {
    hide GatherAll, Gather, NoneLost, Names, Unheld, HeldActs, Settle, IdsOf, Reads;
    match e
    case Hint(push, at) => HintKeeps(s, push, at);
    case TimerFires(at, held, stamp) =>
      FlushLosesNone(s, held, stamp);
      NothingGathered();
    case Answered(k, answers) =>
      var t := Step(s, e);
      if t != s {
        var batch := s.batches[k];
        SettleHearsNothing(batch.ids, answers, batch.since);
        var last := if Failed in answers then [CollectionsRead] else [];
        GrowingLosesNone(s, t, Settle(batch.ids, answers, batch.since) + last);
      }
    case Stop =>
      NothingGathered();
      NothingLostOnceStopped(Step(s, e));
  }

  lemma NothingGathered()
    ensures GatherAll([]) == []
  {
  }

  lemma NothingLostOnceStopped(s: State)
    requires s.stopped
    ensures NoneLost(s)
  {
  }

  lemma {:induction false} RunKeeps(events: seq<Event>)
    ensures Invariant(Run(events))
  {
    hide Step;
    if events == [] {
      NothingGathered();
    } else {
      hide Invariant;
      RunKeeps(events[..|events| - 1]);
      StepKeeps(Run(events[..|events| - 1]), events[|events| - 1]);
    }
  }

  /**
   Over every run, until the reader stops, every push heard waits in an open window
   with both timers running, or was answered after it was heard: its record was read,
   the collections were, or the cache held a version as new as the push named.
   */
  lemma {:induction false} NoHintIsLost(events: seq<Event>, p: nat)
    requires var s := Run(events); !s.stopped && p < |s.log| && s.log[p].Heard?
    ensures var s := Run(events);
            || (Names(s.gathered, s.log[p].push.id) && s.quiet.Some? && s.longest.Some?)
            || AnsweredAfter(s.log, p, s.log[p].push)
  {
    hide Run, GatherAll, AnsweredAfter, StandsFor;
    var s := Run(events);
    RunKeeps(events);
    if s.log[p].push in s.window {
      GatheringSummarises(s.window);
      NamesOne(s.window, s.log[p].push);
    }
  }

  lemma StepLogsOn(s: State, e: Event)
    ensures s.log <= Step(s, e).log
  {
    hide Settle, Unheld, HeldActs, Gather, Names;
  }

  lemma {:induction false} RunLogsOn(before: seq<Event>, more: seq<Event>)
    ensures Run(before).log <= Run(before + more).log
  {
    hide Step;
    if more == [] {
      assert before + more == before;
    } else {
      var front, e := more[..|more| - 1], more[|more| - 1];
      RunLogsOn(before, front);
      assert (before + more)[..|before + more| - 1] == before + front;
      StepLogsOn(Run(before + front), e);
    }
  }

  /**
   A hint given to a reader that has not stopped is, at any time until it stops,
   waiting in an open window or answered after it was given, whatever came since.
   */
  lemma {:induction false} EveryHintIsAnswered(before: seq<Event>, push: Push, at: nat, more: seq<Event>)
    requires !Run(before).stopped && !Run(before + [Hint(push, at)] + more).stopped
    ensures var s := Run(before + [Hint(push, at)] + more);
            || (Names(s.gathered, push.id) && s.quiet.Some? && s.longest.Some?)
            || AnsweredAfter(s.log, |Run(before).log|, push)
  {
    hide Names, AnsweredAfter, Gather;
    var given := before + [Hint(push, at)];
    assert given[..|before|] == before;
    assert Run(given) == Step(Run(before), Hint(push, at));
    RunLogsOn(given, more);
    NoHintIsLost(given + more, |Run(before).log|);
  }

  // ------------------------------------------------------------ windows and their timers

  /** A push, and when it came. */
  datatype Given = Given(push: Push, at: nat)

  predicate HasStopped(events: seq<Event>) {
    exists k :: 0 <= k < |events| && events[k].Stop?
  }

  predicate IsNamed(given: seq<Given>, id: string) {
    exists k :: 0 <= k < |given| && given[k].push.id == id
  }

  /** When a record came that the pushes before it had not named, last. */
  function LastNewAt(given: seq<Given>): nat
    requires given != []
  {
    var front, last := given[..|given| - 1], given[|given| - 1];
    if front == [] || !IsNamed(front, last.push.id) then last.at else LastNewAt(front)
  }

  /** A window is due 100 ms after its last new record, and 500 ms after its first push at the latest. */
  predicate IsDue(given: seq<Given>, at: nat) {
    given != [] && (LastNewAt(given) + 100 <= at || given[0].at + 500 <= at)
  }

  /** The pushes of the window that stands: those that came since a timer last found it due. */
  function Standing(events: seq<Event>): seq<Given> {
    if events == [] then []
    else
      var front, e := events[..|events| - 1], events[|events| - 1];
      match e
      case Hint(push, at) => if HasStopped(front) then [] else Standing(front) + [Given(push, at)]
      case TimerFires(at, _, _) => if IsDue(Standing(front), at) then [] else Standing(front)
      case Answered(_, _) => Standing(front)
      case Stop => []
  }

  function PushesOf(given: seq<Given>): (r: seq<Push>)
    ensures |r| == |given|
    ensures forall k :: 0 <= k < |r| ==> r[k] == given[k].push
  {
    seq(|given|, k requires 0 <= k < |given| => given[k].push)
  }

  /** The reader has gathered the pushes of a window, and its timers are due when the window is. */
  ghost predicate Gathers(s: State, given: seq<Given>) {
    && s.window == PushesOf(given) && s.gathered == GatherAll(s.window)
    && s.quiet == (if given == [] then None else Some(LastNewAt(given) + 100))
    && s.longest == (if given == [] then None else Some(given[0].at + 500))
  }

  lemma NamedIsGathered(s: State, given: seq<Given>, id: string)
    requires Gathers(s, given)
    ensures Names(s.gathered, id) <==> IsNamed(given, id)
  {
    hide GatherAll, StandsFor;
    GatheringSummarises(s.window);
    if Names(s.window, id) {
      var p :| p in s.window && p.id == id;
      var k :| 0 <= k < |s.window| && s.window[k] == p;
      assert given[k].push.id == id;
    }
    if IsNamed(given, id) {
      var k :| 0 <= k < |given| && given[k].push.id == id;
      NamesOne(s.window, s.window[k]);
    }
  }

  lemma HintGathers(s: State, given: seq<Given>, push: Push, at: nat)
    requires Gathers(s, given) && !s.stopped
    ensures Gathers(Step(s, Hint(push, at)), given + [Given(push, at)])
  {
    hide GatherAll, Gather, Names;
    var more := given + [Given(push, at)];
    assert more[..|more| - 1] == given;
    assert PushesOf(more) == PushesOf(given) + [push];
    NamedIsGathered(s, given, push.id);
    GatherAllMore(s.window, push);
  }

  lemma FlushGathers(s: State, held: map<string, nat>, stamp: nat)
    ensures Gathers(Flush(s, held, stamp), [])
  {
    hide Unheld, HeldActs;
    assert PushesOf([]) == [];
    NothingGathered();
  }

  lemma StoppedExactlyWhen(front: seq<Event>, e: Event)
    ensures HasStopped(front + [e]) <==> HasStopped(front) || e.Stop?
  {
    var events := front + [e];
    if HasStopped(front) {
      var k :| 0 <= k < |front| && front[k].Stop?;
      assert events[k].Stop?;
    }
    if e.Stop? {
      assert events[|front|].Stop?;
    }
  }

  /**
   Over every run what is gathered is the window that stands, and its two timers are set for
   100 ms after its last new record and 500 ms after its first push.
   */
  lemma {:induction false} OpenWindowsHaveTimers(events: seq<Event>)
    ensures Gathers(Run(events), Standing(events))
    ensures Run(events).stopped <==> HasStopped(events)
  {
    if events == [] {
      assert PushesOf([]) == [];
      NothingGathered();
    } else {
      hide Step, Gathers, HasStopped, IsDue;
      var front, e := events[..|events| - 1], events[|events| - 1];
      OpenWindowsHaveTimers(front);
      assert events == front + [e];
      StoppedExactlyWhen(front, e);
      StepGathers(front, e);
    }
  }

  lemma StoppedStandsEmpty(events: seq<Event>)
    ensures HasStopped(events) ==> Standing(events) == []
  {
    hide IsDue;
    if events != [] {
      var front, e := events[..|events| - 1], events[|events| - 1];
      StoppedStandsEmpty(front);
      assert events == front + [e];
      StoppedExactlyWhen(front, e);
      NothingIsDue();
    }
  }

  lemma NothingIsDue()
    ensures forall at :: !IsDue([], at)
  {
  }

  lemma StepGathers(front: seq<Event>, e: Event)
    requires Gathers(Run(front), Standing(front)) && (Run(front).stopped <==> HasStopped(front))
    ensures Gathers(Step(Run(front), e), Standing(front + [e]))
    ensures Step(Run(front), e).stopped <==> HasStopped(front) || e.Stop?
  {
    hide Run, GatherAll, Gather, Names, HasStopped, Unheld, HeldActs, Settle, LastNewAt;
    var s, given := Run(front), Standing(front);
    assert (front + [e])[..|front|] == front;
    match e
    case Hint(push, at) =>
      if s.stopped {
        StoppedStandsEmpty(front);
      } else {
        HintGathers(s, given, push, at);
      }
    case TimerFires(at, held, stamp) => FlushGathers(s, held, stamp);
    case Answered(_, _) =>
    case Stop => FlushGathers(s, map[], 0);
  }

  // ------------------------------------------------------------ a timer that fires

  /** One of these acts answers the push. */
  ghost predicate AnsweredBy(acts: seq<Act>, push: Push) {
    exists act :: act in acts && AnswersTo(act, push)
  }

  lemma DueIsFired(s: State, given: seq<Given>, at: nat, held: map<string, nat>, stamp: nat)
    requires Gathers(s, given)
    ensures Step(s, TimerFires(at, held, stamp)) == if IsDue(given, at) then Flush(s, held, stamp) else s
  {
    hide GatherAll, LastNewAt, Flush;
  }

  /**
   A timer that fires when the window is due leaves nothing gathered and no timer set, and
   what it logs answers every push of the window; before the window is due it does nothing.
   */
  lemma {:induction false} AFireAnswersTheWindow(events: seq<Event>, at: nat, held: map<string, nat>, stamp: nat)
    requires !HasStopped(events)
    ensures var s, t := Run(events), Run(events + [TimerFires(at, held, stamp)]);
            if IsDue(Standing(events), at) then
              && t.gathered == [] && t.quiet.None? && t.longest.None? && t.log == s.log + FlushActs(s, held, stamp)
              && forall k :: 0 <= k < |Standing(events)| ==>
                   AnsweredBy(FlushActs(s, held, stamp), Standing(events)[k].push)
            else t == s
  {
    hide Run, Standing, FlushActs, GatherAll, Step, IsDue, HasStopped, LastNewAt;
    var s, given, fire := Run(events), Standing(events), TimerFires(at, held, stamp);
    OpenWindowsHaveTimers(events);
    RunMore(events, fire);
    DueIsFired(s, given, at, held, stamp);
    FlushGathers(s, held, stamp);
    FlushAppends(s, held, stamp);
    forall k | 0 <= k < |given|
      ensures AnsweredBy(FlushActs(s, held, stamp), given[k].push)
    {
      assert s.window[k] == given[k].push;
      FlushAnswers(s, held, stamp, given[k].push);
    }
    NothingGathered();
    assert PushesOf([]) == [];
  }

  lemma RunMore(events: seq<Event>, e: Event)
    ensures Run(events + [e]) == Step(Run(events), e)
  {
    assert (events + [e])[..|events|] == events;
  }

  // ------------------------------------------------------------ the cost of a window

  function CountReads(acts: seq<Act>): nat {
    if acts == [] then 0 else CountReads(acts[..|acts| - 1]) + if acts[|acts| - 1].ReadIssued? then 1 else 0
  }

  function CountCollections(acts: seq<Act>): nat {
    if acts == [] then 0 else CountCollections(acts[..|acts| - 1]) + if acts[|acts| - 1].CollectionsRead? then 1 else 0
  }

  lemma {:induction false} CountsAdd(a: seq<Act>, b: seq<Act>)
    ensures CountReads(a + b) == CountReads(a) + CountReads(b)
    ensures CountCollections(a + b) == CountCollections(a) + CountCollections(b)
  {
    if b == [] {
      assert a + b == a;
    } else {
      CountsAdd(a, b[..|b| - 1]);
      assert (a + b)[..|a + b| - 1] == a + b[..|b| - 1];
    }
  }

  lemma {:induction false} CountsOfHeld(acts: seq<Act>)
    requires forall act :: act in acts ==> act.HeldAlready?
    ensures CountReads(acts) == 0 && CountCollections(acts) == 0
  {
    if acts != [] {
      assert acts[|acts| - 1] in acts;
      CountsOfHeld(acts[..|acts| - 1]);
    }
  }

  lemma {:induction false} CountsOfReads(acts: seq<Act>)
    requires forall k :: 0 <= k < |acts| ==> acts[k].ReadIssued?
    ensures CountReads(acts) == |acts| && CountCollections(acts) == 0
  {
    if acts != [] {
      CountsOfReads(acts[..|acts| - 1]);
    }
  }

  lemma CountsOfOne()
    ensures CountReads([CollectionsRead]) == 0 && CountCollections([CollectionsRead]) == 1
    ensures CountReads([]) == 0 && CountCollections([]) == 0
  {
    var one := [CollectionsRead];
    assert one[..|one| - 1] == [];
  }

  /**
   A window costs at most twenty reads of single records, or one read of the
   collections and none of a single record: exactly the records the cache does not
   hold, or one read once there are more than twenty of them.
   */
  lemma AWindowCostsAtMostABurst(s: State, held: map<string, nat>, stamp: nat)
    ensures var acts, missing := FlushActs(s, held, stamp), |Unheld(s.gathered, held)|;
            && CountReads(acts) == (if missing <= HINT_BURST then missing else 0)
            && CountCollections(acts) == (if missing <= HINT_BURST then 0 else 1)
  {
    hide HeldActs, Unheld, CountReads, CountCollections;
    HeldActsHearNothing(s.gathered, held);
    CountsOfHeld(HeldActs(s.gathered, held));
    CountsOfOne();
    var batch := Unheld(s.gathered, held);
    CountsOfReads(Reads(IdsOf(batch), stamp));
    CountsAdd(HeldActs(s.gathered, held), Reads(IdsOf(batch), stamp));
    CountsAdd(HeldActs(s.gathered, held), [CollectionsRead]);
    CountsAdd(HeldActs(s.gathered, held), []);
  }

  lemma {:induction false} UnheldIsPart(gathered: seq<Push>, held: map<string, nat>)
    requires DistinctIds(gathered)
    ensures DistinctIds(Unheld(gathered, held))
    ensures forall g :: g in Unheld(gathered, held) <==> g in gathered && !IsHeld(g, held)
  {
    hide IsHeld;
    if gathered != [] {
      var front, last := gathered[..|gathered| - 1], gathered[|gathered| - 1];
      UnheldIsPart(front, held);
      var rest := Unheld(front, held);
      assert forall g :: g in gathered <==> g in front || g == last;
      assert forall i :: 0 <= i < |rest| ==> rest[i] in front;
    }
  }

  /** No record is read twice for one window, however often it was named. */
  lemma {:induction false} NoRecordIsReadTwice(events: seq<Event>, held: map<string, nat>, i: nat, j: nat)
    requires i < j < |IdsOf(Unheld(Run(events).gathered, held))|
    ensures var ids := IdsOf(Unheld(Run(events).gathered, held)); ids[i] != ids[j]
  {
    hide Run, GatherAll, Unheld;
    var s := Run(events);
    RunKeeps(events);
    GatheringSummarises(s.window);
    UnheldIsPart(s.gathered, held);
  }

  lemma {:induction false} HeldActsAreHeld(gathered: seq<Push>, held: map<string, nat>)
    ensures forall act :: act in HeldActs(gathered, held) <==>
              exists g :: g in gathered && IsHeld(g, held) && act == HeldAlready(g.id, g.version.value)
  {
    hide IsHeld;
    if gathered != [] {
      var front, last := gathered[..|gathered| - 1], gathered[|gathered| - 1];
      HeldActsAreHeld(front, held);
      assert forall g :: g in gathered <==> g in front || g == last;
      if IsHeld(last, held) {
        HeldHasVersion(last, held);
      }
    }
  }

  lemma ReadsAreOf(batch: seq<Push>, since: nat)
    ensures forall act :: act in Reads(IdsOf(batch), since) <==>
              exists g :: g in batch && act == ReadIssued(g.id, since)
  {
    var acts := Reads(IdsOf(batch), since);
    forall g | g in batch
      ensures ReadIssued(g.id, since) in acts
    {
      IdIsRead(batch, g, since);
    }
    forall act | act in acts
      ensures exists g :: g in batch && act == ReadIssued(g.id, since)
    {
      var k :| 0 <= k < |acts| && acts[k] == act;
      assert batch[k] in batch;
    }
  }

  /** A window's records the cache does not hold at the version gathered. */
  ghost predicate IsMissing(gathered: seq<Push>, held: map<string, nat>, id: string) {
    exists g :: g in gathered && g.id == id && !IsHeld(g, held)
  }

  lemma HeldIsNoRead(acts: seq<Act>, others: seq<Act>, act: Act)
    requires forall a :: a in acts ==> a.HeldAlready?
    requires !act.HeldAlready?
    ensures act in acts + others <==> act in others
  {
  }

  /**
   Up to the bound, a window has exactly the records read that the cache does not hold as new,
   at the window's stamp; past it the collections and no record.
   */
  lemma {:induction false} AWindowReadsExactlyWhatIsMissing(
      events: seq<Event>, held: map<string, nat>, stamp: nat, id: string, since: nat)
    ensures var s := Run(events);
            var acts, few := FlushActs(s, held, stamp), |Unheld(s.gathered, held)| <= 20;
            && (ReadIssued(id, since) in acts <==> since == stamp && few && IsMissing(s.gathered, held, id))
            && (CollectionsRead in acts <==> !few)
  {
    hide Run, HeldActs, Unheld, IsHeld, GatherAll, IdsOf, Reads;
    var s := Run(events);
    var batch := Unheld(s.gathered, held);
    RunKeeps(events);
    GatheringSummarises(s.window);
    UnheldIsPart(s.gathered, held);
    HeldActsHearNothing(s.gathered, held);
    ReadsAreOf(batch, stamp);
    var others :=
      if batch == [] then [] else if |batch| > HINT_BURST then [CollectionsRead] else Reads(IdsOf(batch), stamp);
    HeldIsNoRead(HeldActs(s.gathered, held), others, ReadIssued(id, since));
    HeldIsNoRead(HeldActs(s.gathered, held), others, CollectionsRead);
    if IsMissing(s.gathered, held, id) {
      var g :| g in s.gathered && g.id == id && !IsHeld(g, held);
      assert g in batch;
    }
  }

  // ------------------------------------------------------------ what the reads come to

  /** What one read that said something came to. */
  function CameTo(id: string, answer: Answer, since: nat): Act {
    if answer.Record? then Placed(id, since) else TakenOut(id, since)
  }

  /** What each read came to: placed, taken out, or unknown, with the stamp its window was read at. */
  ghost predicate SettledAs(acts: seq<Act>, ids: seq<string>, answers: seq<Answer>, since: nat)
    requires |ids| == |answers|
  {
    && (forall i :: 0 <= i < |ids| && !answers[i].Failed? ==> CameTo(ids[i], answers[i], since) in acts)
    && (forall act :: act in acts ==>
          exists i :: 0 <= i < |ids| && !answers[i].Failed? && act == CameTo(ids[i], answers[i], since))
  }

  lemma {:induction false} ReadsSettle(ids: seq<string>, answers: seq<Answer>, since: nat)
    requires |ids| == |answers|
    ensures SettledAs(Settle(ids, answers, since), ids, answers, since)
  {
    if ids != [] {
      var front, rest := ids[..|ids| - 1], answers[..|ids| - 1];
      ReadsSettle(front, rest, since);
      var before, acts := Settle(front, rest, since), Settle(ids, answers, since);
      assert forall act :: act in before ==> act in acts;
      assert forall i :: 0 <= i < |front| ==> front[i] == ids[i] && rest[i] == answers[i];
      forall act | act in acts
        ensures exists i :: 0 <= i < |ids| && !answers[i].Failed? && act == CameTo(ids[i], answers[i], since)
      {
        if act in before {
          var i :| 0 <= i < |front| && !rest[i].Failed? && act == CameTo(front[i], rest[i], since);
          assert act == CameTo(ids[i], answers[i], since);
        } else {
          assert act == CameTo(ids[|front|], answers[|front|], since);
        }
      }
    }
  }

  /**
   The answers of a window's reads, all back, are settled together: each record that came is
   placed and each that is not there taken out, and the collections are read after them
   exactly when some read failed. They are settled once.
   */
  lemma AnswersAreSettled(s: State, k: nat, answers: seq<Answer>)
    requires !s.stopped && k < |s.batches| && !s.batches[k].settled && |answers| == |s.batches[k].ids|
    ensures var t, batch := Step(s, Answered(k, answers)), s.batches[k];
            && t.batches == s.batches[k := batch.(settled := true)]
            && exists came ::
                 && SettledAs(came, batch.ids, answers, batch.since)
                 && t.log == s.log + came + if Failed in answers then [CollectionsRead] else []
  {
    hide Settle, SettledAs;
    ReadsSettle(s.batches[k].ids, answers, s.batches[k].since);
  }

  /** A read came to something: its record was placed or taken out, or the collections were read. */
  predicate SettlesRead(act: Act, id: string, since: nat) {
    act == Placed(id, since) || act == TakenOut(id, since) || act == CollectionsRead
  }

  ghost predicate ReadSettledAfter(log: seq<Act>, p: nat, id: string, since: nat) {
    exists q :: p < q < |log| && SettlesRead(log[q], id, since)
  }

  /** The read is one of a batch whose answers are not all back. */
  ghost predicate IsUnderWay(batches: seq<Batch>, id: string, since: nat) {
    exists k :: 0 <= k < |batches| && !batches[k].settled && batches[k].since == since && id in batches[k].ids
  }

  ghost predicate NoReadIsLost(s: State) {
    forall p :: 0 <= p < |s.log| && s.log[p].ReadIssued? ==>
      || IsUnderWay(s.batches, s.log[p].id, s.log[p].since)
      || ReadSettledAfter(s.log, p, s.log[p].id, s.log[p].since)
  }

  lemma SettledStays(log: seq<Act>, more: seq<Act>, p: nat, id: string, since: nat)
    requires ReadSettledAfter(log, p, id, since)
    ensures ReadSettledAfter(log + more, p, id, since)
  {
    var q :| p < q < |log| && SettlesRead(log[q], id, since);
    assert (log + more)[q] == log[q];
  }

  lemma SettledNow(log: seq<Act>, more: seq<Act>, p: nat, id: string, since: nat, act: Act)
    requires p < |log| && act in more && SettlesRead(act, id, since)
    ensures ReadSettledAfter(log + more, p, id, since)
  {
    var k :| 0 <= k < |more| && more[k] == act;
    assert (log + more)[|log| + k] == act;
  }

  /** More is logged, and every batch under way stays so, but perhaps new ones. */
  lemma LoggingLosesNoRead(s: State, t: State, more: seq<Act>, batches: seq<Batch>)
    requires NoReadIsLost(s) && t.log == s.log + more && t.batches == s.batches + batches
    requires forall act :: act in more && act.ReadIssued? ==> IsUnderWay(batches, act.id, act.since)
    ensures NoReadIsLost(t)
  {
    forall p | 0 <= p < |t.log| && t.log[p].ReadIssued?
      ensures IsUnderWay(t.batches, t.log[p].id, t.log[p].since)
           || ReadSettledAfter(t.log, p, t.log[p].id, t.log[p].since)
    {
      var act := t.log[p];
      if p < |s.log| {
        assert act == s.log[p];
        if IsUnderWay(s.batches, act.id, act.since) {
          var k :| 0 <= k < |s.batches| && !s.batches[k].settled && s.batches[k].since == act.since
                   && act.id in s.batches[k].ids;
          assert t.batches[k] == s.batches[k];
        } else {
          SettledStays(s.log, more, p, act.id, act.since);
        }
      } else {
        assert act == more[p - |s.log|];
        var k :| 0 <= k < |batches| && !batches[k].settled && batches[k].since == act.since
                 && act.id in batches[k].ids;
        assert t.batches[|s.batches| + k] == batches[k];
      }
    }
  }

  lemma FlushLosesNoRead(s: State, held: map<string, nat>, stamp: nat)
    requires NoReadIsLost(s)
    ensures NoReadIsLost(Flush(s, held, stamp))
  {
    hide Unheld, HeldActs, NoReadIsLost, IsUnderWay;
    var t := Flush(s, held, stamp);
    if s.stopped {
      assert s.log + [] == s.log && s.batches + [] == s.batches;
      LoggingLosesNoRead(s, t, [], []);
    } else {
      var batch := Unheld(s.gathered, held);
      HeldActsHearNothing(s.gathered, held);
      FlushAppends(s, held, stamp);
      if batch == [] || |batch| > HINT_BURST {
        assert s.batches + [] == s.batches;
        LoggingLosesNoRead(s, t, FlushActs(s, held, stamp), []);
      } else {
        ReadsAreOf(batch, stamp);
        BatchIsUnderWay(batch, stamp);
        LoggingLosesNoRead(s, t, FlushActs(s, held, stamp), [Batch(IdsOf(batch), stamp, false)]);
      }
    }
  }

  lemma BatchIsUnderWay(batch: seq<Push>, stamp: nat)
    ensures forall g :: g in batch ==> IsUnderWay([Batch(IdsOf(batch), stamp, false)], g.id, stamp)
  {
    forall g | g in batch
      ensures IsUnderWay([Batch(IdsOf(batch), stamp, false)], g.id, stamp)
    {
      var i :| 0 <= i < |batch| && batch[i] == g;
      assert IdsOf(batch)[i] == g.id;
      assert [Batch(IdsOf(batch), stamp, false)][0].ids == IdsOf(batch);
    }
  }

  lemma AnswersLoseNoRead(s: State, k: nat, answers: seq<Answer>)
    requires NoReadIsLost(s) && !s.stopped && k < |s.batches| && !s.batches[k].settled
    requires |answers| == |s.batches[k].ids|
    ensures NoReadIsLost(Step(s, Answered(k, answers)))
  {
    hide Settle, SettledAs;
    var t, batch := Step(s, Answered(k, answers)), s.batches[k];
    var came, last := Settle(batch.ids, answers, batch.since), if Failed in answers then [CollectionsRead] else [];
    SettleHearsNothing(batch.ids, answers, batch.since);
    assert t.log == s.log + (came + last);
    forall p | 0 <= p < |t.log| && t.log[p].ReadIssued?
      ensures IsUnderWay(t.batches, t.log[p].id, t.log[p].since)
           || ReadSettledAfter(t.log, p, t.log[p].id, t.log[p].since)
    {
      var act := t.log[p];
      if p < |s.log| {
        assert act == s.log[p];
        if ReadSettledAfter(s.log, p, act.id, act.since) {
          SettledStays(s.log, came + last, p, act.id, act.since);
        } else {
          var j :| 0 <= j < |s.batches| && !s.batches[j].settled && s.batches[j].since == act.since
                   && act.id in s.batches[j].ids;
          if j == k {
            var settling := ReadComesTo(batch.ids, answers, batch.since, act.id);
            SettledNow(s.log, came + last, p, act.id, act.since, settling);
          } else {
            assert t.batches[j] == s.batches[j];
          }
        }
      } else {
        NoReadAmong(came, last, p - |s.log|);
        SettlesWithoutReads(batch.ids, answers, batch.since);
      }
    }
  }

  lemma NoReadAmong(came: seq<Act>, last: seq<Act>, i: nat)
    requires i < |came + last| && forall act :: act in last ==> act.CollectionsRead?
    ensures (came + last)[i] in came || (came + last)[i].CollectionsRead?
  {
    if i >= |came| {
      assert (came + last)[i] in last;
    }
  }

  lemma SettlesWithoutReads(ids: seq<string>, answers: seq<Answer>, since: nat)
    requires |ids| == |answers|
    ensures forall act :: act in Settle(ids, answers, since) ==> !act.ReadIssued?
  {
    hide Settle;
    ReadsSettle(ids, answers, since);
  }

  lemma ReadComesTo(ids: seq<string>, answers: seq<Answer>, since: nat, id: string) returns (act: Act)
    requires |ids| == |answers| && id in ids
    ensures act in Settle(ids, answers, since) + (if Failed in answers then [CollectionsRead] else [])
    ensures SettlesRead(act, id, since)
  {
    hide Settle;
    ReadsSettle(ids, answers, since);
    var i :| 0 <= i < |ids| && ids[i] == id;
    act := if answers[i].Failed? then CollectionsRead else CameTo(ids[i], answers[i], since);
  }

  lemma StepLosesNoRead(s: State, e: Event)
    requires NoReadIsLost(s)
    ensures NoReadIsLost(Step(s, e))
  {
    hide Settle, Flush, Gather, Names, NoReadIsLost;
    match e
    case Hint(push, _) =>
      if !s.stopped {
        assert s.batches + [] == s.batches;
        LoggingLosesNoRead(s, Step(s, e), [Heard(push)], []);
      }
    case TimerFires(_, held, stamp) => FlushLosesNoRead(s, held, stamp);
    case Answered(k, answers) =>
      if !s.stopped && k < |s.batches| && !s.batches[k].settled && |answers| == |s.batches[k].ids| {
        AnswersLoseNoRead(s, k, answers);
      }
    case Stop =>
      assert s.log + [] == s.log && s.batches + [] == s.batches;
      LoggingLosesNoRead(s, Step(s, e), [], []);
  }

  /**
   Over every run each read issued is under way, or came to something after it was issued: its
   record was placed or taken out, or, some read of its window having failed, the collections
   were read.
   */
  lemma {:induction false} EveryReadComesToSomething(events: seq<Event>)
    ensures NoReadIsLost(Run(events))
  {
    hide Step;
    if events != [] {
      EveryReadComesToSomething(events[..|events| - 1]);
      StepLosesNoRead(Run(events[..|events| - 1]), events[|events| - 1]);
    }
  }

  // ------------------------------------------------------------ stopping

  lemma StepAfterStop(s: State, e: Event)
    requires s.stopped
    ensures Step(s, e).stopped && Step(s, e).log == s.log
  {
    hide Settle, Unheld, HeldActs;
  }

  /** Once the reader stops nothing is read, placed or taken out, whatever comes after. */
  lemma {:induction false} NothingAfterStop(before: seq<Event>, after: seq<Event>)
    requires Run(before).stopped
    ensures Run(before + after).stopped && Run(before + after).log == Run(before).log
  {
    hide Step;
    if after == [] {
      assert before + after == before;
    } else {
      var front, e := after[..|after| - 1], after[|after| - 1];
      NothingAfterStop(before, front);
      assert (before + after)[..|before + after| - 1] == before + front;
      StepAfterStop(Run(before + front), e);
    }
  }

  // ------------------------------------------------------------ the reader itself

  class Reader {
    var gathered: seq<Push>
    var quiet: Option<nat>
    var longest: Option<nat>
    var stopped: bool
    var batches: seq<Batch>
    ghost var log: seq<Act>
    ghost var window: seq<Push>
    ghost var openedAt: nat
    ghost var lastNewAt: nat

    constructor ()
      ensures View() == INITIAL
    {
      gathered, quiet, longest, stopped, batches := [], None, None, false, [];
      log, window, openedAt, lastNewAt := [], [], 0, 0;
    }

    ghost function View(): State
      reads this
    {
      State(gathered, quiet, longest, stopped, batches, log, window, openedAt, lastNewAt)
    }

    method CloseWindow()
      modifies this`quiet, this`longest
      ensures quiet == None && longest == None
    {
      quiet, longest := None, None;
    }

    /** Where a record stands among the gathered ones; past the end when it is not there. */
    method Find(id: string) returns (at: nat)
      ensures at <= |gathered| && (forall i :: 0 <= i < at ==> gathered[i].id != id)
      ensures at < |gathered| ==> gathered[at].id == id
      ensures at < |gathered| <==> Names(gathered, id)
    {
      at := 0;
      while at < |gathered| && gathered[at].id != id
        invariant at <= |gathered| && forall i :: 0 <= i < at ==> gathered[i].id != id
      {
        at := at + 1;
      }
      if at < |gathered| {
        NamesOne(gathered, gathered[at]);
      }
    }

    method OnHint(push: Push, at: nat)
      modifies this
      ensures View() == Step(old(View()), Hint(push, at))
    {
      hide Gather, Names;
      if stopped {
        return;
      }
      window, log := window + [push], log + [Heard(push)];
      var k := Find(push.id);
      if k < |gathered| {
        GatherAt(gathered, push, k);
        gathered := gathered[k := Push(push.id, Join(gathered[k].version, push.version))];
        return;
      }
      GatherNew(gathered, push);
      gathered := gathered + [push];
      quiet, lastNewAt := Some(at + HINT_WINDOW_MS), at;
      if longest.None? {
        longest, openedAt := Some(at + HINT_WINDOW_MAX_MS), at;
      }
    }

    method FlushWindow(held: map<string, nat>, stamp: nat)
      modifies this
      ensures View() == Flush(old(View()), held, stamp)
    {
      hide Unheld, HeldActs, IsHeld, GatherAll;
      CloseWindow();
      var all := gathered;
      gathered, window := [], [];
      if stopped {
        return;
      }
      NothingHeld(held);
      var batch: seq<Push> := [];
      ghost var before := log;
      for i := 0 to |all|
        invariant batch == Unheld(all[..i], held) && log == before + HeldActs(all[..i], held)
        invariant gathered == [] && window == [] && quiet == None && longest == None && !stopped
        invariant batches == old(batches) && openedAt == old(openedAt) && lastNewAt == old(lastNewAt)
      {
        UnheldMore(all, held, i);
        if IsHeld(all[i], held) {
          log := log + [HeldAlready(all[i].id, all[i].version.value)];
        } else {
          batch := batch + [all[i]];
        }
      }
      assert all[..|all|] == all;
      if batch == [] {
        return;
      }
      if |batch| > HINT_BURST {
        log := log + [CollectionsRead];
        return;
      }
      var ids := IdsOf(batch);
      batches, log := batches + [Batch(ids, stamp, false)], log + Reads(ids, stamp);
    }

    method OnTimer(at: nat, held: map<string, nat>, stamp: nat)
      modifies this
      ensures View() == Step(old(View()), TimerFires(at, held, stamp))
    {
      hide Flush;
      if (quiet.Some? && quiet.value <= at) || (longest.Some? && longest.value <= at) {
        FlushWindow(held, stamp);
      }
    }

    method OnAnswered(k: nat, answers: seq<Answer>)
      modifies this`batches, this`log
      ensures View() == Step(old(View()), Answered(k, answers))
    {
      hide Settle;
      if stopped || k >= |batches| || batches[k].settled || |answers| != |batches[k].ids| {
        return;
      }
      NothingSettled(batches[k].since);
      var ids, since, unknown := batches[k].ids, batches[k].since, false;
      batches := batches[k := batches[k].(settled := true)];
      ghost var before := log;
      for i := 0 to |ids|
        invariant log == before + Settle(ids[..i], answers[..i], since)
        invariant unknown <==> Failed in answers[..i]
        invariant batches == old(batches)[k := old(batches)[k].(settled := true)]
      {
        SettleMore(ids, answers, since, i);
        match answers[i]
        case Record => log := log + [Placed(ids[i], since)];
        case NotThere => log := log + [TakenOut(ids[i], since)];
        case Failed => unknown := true;
      }
      assert ids[..|ids|] == ids && answers[..|ids|] == answers;
      assert log + [] == log;
      if unknown {
        log := log + [CollectionsRead];
      }
    }

    method OnStop()
      modifies this
      ensures View() == Step(old(View()), Stop)
    {
      stopped := true;
      CloseWindow();
      gathered, window := [], [];
    }
  }

  lemma {:induction false} GatherAt(gathered: seq<Push>, push: Push, at: nat)
    requires at < |gathered| && gathered[at].id == push.id && forall i :: 0 <= i < at ==> gathered[i].id != push.id
    ensures Gather(gathered, push) == gathered[at := Push(push.id, Join(gathered[at].version, push.version))]
  {
    hide Join;
    if at > 0 {
      GatherAt(gathered[1..], push, at - 1);
    }
  }

  lemma {:induction false} GatherNew(gathered: seq<Push>, push: Push)
    requires forall i :: 0 <= i < |gathered| ==> gathered[i].id != push.id
    ensures Gather(gathered, push) == gathered + [push]
  {
    if gathered != [] {
      GatherNew(gathered[1..], push);
    }
  }

  lemma NothingSettled(since: nat)
    ensures Settle([], [], since) == []
  {
  }

  lemma SettleMore(ids: seq<string>, answers: seq<Answer>, since: nat, i: nat)
    requires i < |ids| == |answers|
    ensures Settle(ids[..i + 1], answers[..i + 1], since)
         == Settle(ids[..i], answers[..i], since)
            + if answers[i].Failed? then [] else [CameTo(ids[i], answers[i], since)]
  {
    assert ids[..i + 1][..i] == ids[..i] && answers[..i + 1][..i] == answers[..i];
  }

  lemma NothingHeld(held: map<string, nat>)
    ensures Unheld([], held) == [] && HeldActs([], held) == []
  {
  }

  lemma UnheldMore(all: seq<Push>, held: map<string, nat>, i: nat)
    requires i < |all|
    ensures Unheld(all[..i + 1], held)
         == if IsHeld(all[i], held) then Unheld(all[..i], held) else Unheld(all[..i], held) + [all[i]]
    ensures HeldActs(all[..i + 1], held)
         == if IsHeld(all[i], held) then HeldActs(all[..i], held) + [HeldAlready(all[i].id, all[i].version.value)]
            else HeldActs(all[..i], held)
    ensures IsHeld(all[i], held) ==> all[i].version.Some?
  {
    assert all[..i + 1][..i] == all[..i];
  }
}
