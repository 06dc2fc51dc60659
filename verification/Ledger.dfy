/**
 Which of several out-of-order answers about one record wins
 (`apps/portal/src/queries/ledger.ts`).
 */
module Ledger {
  import opened Options

  datatype Heard = Heard(version: Option<nat>, since: nat, gone: bool)

  /** An answer of a read issued at `since`: the record, with its version when it carries one, or nothing. */
  datatype Answer = Found(version: Option<nat>, since: nat) | Gone(since: nat)

  /** Whether an answer is refused as older than what was last heard. */
  predicate IsOlder(last: Option<Heard>, answer: Answer) {
    last.Some? &&
    match answer
    case Found(version, since) =>
      if !last.value.gone && version.Some? && last.value.version.Some?
      then version.value < last.value.version.value
      else since < last.value.since
    case Gone(since) => since < last.value.since
  }

  /** What is heard of a record after an answer. */
  function Hear(last: Option<Heard>, answer: Answer): Option<Heard> {
    if IsOlder(last, answer) then last
    else match answer
      case Found(version, since) => Some(Heard(version, since, false))
      case Gone(since) => Some(Heard(if last.Some? then last.value.version else None, since, true))
  }

  /** What is heard after several answers, in the order they land. */
  function HearAll(start: Option<Heard>, answers: seq<Answer>): Option<Heard> {
    if answers == [] then start
    else Hear(HearAll(start, answers[..|answers| - 1]), answers[|answers| - 1])
  }

  predicate HoldsAt(last: Option<Heard>, version: nat) {
    last.Some? && !last.value.gone && last.value.version.Some? && last.value.version.value >= version
  }

  /** What is heard of one record. */
  function LastOf(heard: map<string, Heard>, id: string): Option<Heard> {
    if id in heard then Some(heard[id]) else None
  }

  /** A ledger after an answer about one record; every other record is left alone. */
  function Noted(heard: map<string, Heard>, id: string, answer: Answer): map<string, Heard> {
    if IsOlder(LastOf(heard, id), answer) then heard
    else heard[id := Hear(LastOf(heard, id), answer).value]
  }

  lemma RefusedIsNotNoted(heard: map<string, Heard>, id: string, answer: Answer)
    ensures IsOlder(LastOf(heard, id), answer) ==> Noted(heard, id, answer) == heard
  {
  }

  class Ledger {
    var clock: nat
    var heard: map<string, Heard>

    constructor ()
      ensures clock == 0 && heard == map[]
    {
      clock, heard := 0, map[];
    }

    method Stamp() returns (stamp: nat)
      modifies this`clock
      ensures stamp == clock == old(clock) + 1
    {
      clock := clock + 1;
      stamp := clock;
    }

    method Admit(id: string, version: Option<nat>, since: nat) returns (admitted: bool)
      modifies this`heard
      ensures admitted == !IsOlder(LastOf(old(heard), id), Found(version, since))
      ensures heard == Noted(old(heard), id, Found(version, since))
    {
      if id in heard {
        var last := heard[id];
        var older := if !last.gone && version.Some? && last.version.Some?
                     then version.value < last.version.value else since < last.since;
        if older {
          return false;
        }
      }
      heard := heard[id := Heard(version, since, false)];
      admitted := true;
    }

    method AdmitGone(id: string, since: nat) returns (admitted: bool)
      modifies this`heard
      ensures admitted == !IsOlder(LastOf(old(heard), id), Gone(since))
      ensures heard == Noted(old(heard), id, Gone(since))
    {
      if id in heard && since < heard[id].since {
        return false;
      }
      heard := heard[id := Heard(if id in heard then heard[id].version else None, since, true)];
      admitted := true;
    }

    method Holds(id: string, version: nat) returns (held: bool)
      ensures held == HoldsAt(LastOf(heard, id), version)
    {
      held := id in heard && !heard[id].gone && heard[id].version.Some? && heard[id].version.value >= version;
    }
  }

  /** Heard one answer at a time, a ledger's map holds what each record's own answers amount to. */
  lemma NotedIsHeard(heard: map<string, Heard>, id: string, answer: Answer, other: string)
    ensures LastOf(Noted(heard, id, answer), other)
         == if other == id then Hear(LastOf(heard, id), answer) else LastOf(heard, other)
  {
  }

  /** An answer about one record. */
  datatype Post = Post(id: string, answer: Answer)

  /** A ledger after answers about any records, in the order they land. */
  function NotedAll(posts: seq<Post>): map<string, Heard> {
    if posts == [] then map[]
    else Noted(NotedAll(posts[..|posts| - 1]), posts[|posts| - 1].id, posts[|posts| - 1].answer)
  }

  /** The answers about one record, in the order they land. */
  function About(posts: seq<Post>, id: string): seq<Answer> {
    if posts == [] then []
    else
      var before, last := About(posts[..|posts| - 1], id), posts[|posts| - 1];
      if last.id == id then before + [last.answer] else before
  }

  /** What a ledger holds of a record is what the answers about that record amount to, whatever came between. */
  lemma {:induction false} EachRecordHearsItsOwn(posts: seq<Post>, id: string)
    ensures LastOf(NotedAll(posts), id) == HearAll(None, About(posts, id))
  {
    hide Noted, Hear;
    if posts != [] {
      var front, last := posts[..|posts| - 1], posts[|posts| - 1];
      EachRecordHearsItsOwn(front, id);
      NotedIsHeard(NotedAll(front), last.id, last.answer, id);
      var own := About(front, id) + [last.answer];
      assert own[..|own| - 1] == About(front, id);
    }
  }

  // ------------------------------------------------------------ convergence

  ghost predicate DistinctStamps(answers: seq<Answer>) {
    forall i, j :: 0 <= i < j < |answers| ==> answers[i].since != answers[j].since
  }

  /** What was heard is what this answer said. */
  ghost predicate Says(last: Option<Heard>, answer: Answer) {
    && last.Some? && last.value.since == answer.since && last.value.gone == answer.Gone?
    && (answer.Found? ==> last.value.version == answer.version)
  }

  ghost predicate IsLatest(answers: seq<Answer>, top: Answer) {
    top in answers && forall a :: a in answers ==> a.since <= top.since
  }

  /** No answer about the record carries a version at or past this one's. */
  ghost predicate OutversionsTheRest(answers: seq<Answer>, top: Answer) {
    forall a :: a in answers && a != top && a.Found? && a.version.Some? && top.Found? && top.version.Some? ==>
      a.version.value < top.version.value
  }

  /** Every order the answers can land in. */
  ghost predicate IsOrderOf(order: seq<Answer>, answers: seq<Answer>) {
    multiset(order) == multiset(answers)
  }

  lemma SameMembers(order: seq<Answer>, answers: seq<Answer>)
    requires IsOrderOf(order, answers)
    ensures forall a :: a in order <==> a in answers
  {
    forall a
      ensures a in order <==> a in answers
    {
      assert a in order <==> a in multiset(order);
      assert a in answers <==> a in multiset(answers);
    }
  }

  /** What is heard always comes from some answer that landed. */
  lemma {:induction false} HeardIsSaid(answers: seq<Answer>)
    ensures answers == [] <==> HearAll(None, answers).None?
    ensures answers != [] ==>
              var last := HearAll(None, answers).value;
              && (exists a :: a in answers && Says(Some(last), a))
              && (last.version.Some? ==> exists a :: a in answers && a.Found? && a.version == last.version)
  {
    if answers != [] {
      var front, a := answers[..|answers| - 1], answers[|answers| - 1];
      HeardIsSaid(front);
      assert a in answers && forall b :: b in front ==> b in answers;
      if IsOlder(HearAll(None, front), a) {
        var b :| b in front && Says(HearAll(None, front), b);
        assert b in answers;
      } else {
        assert Says(HearAll(None, answers), a);
      }
    }
  }

  /** Once the latest answer has landed, an answer that neither outdates nor outversions it changes nothing. */
  lemma {:induction false} LatestStays(start: Option<Heard>, top: Answer, rest: seq<Answer>)
    requires Says(start, top)
    requires forall a :: a in rest ==> a.since < top.since
    requires OutversionsTheRest(rest, top) && top !in rest
    ensures HearAll(start, rest) == start
  {
    if rest != [] {
      var front, a := rest[..|rest| - 1], rest[|rest| - 1];
      LatestStays(start, top, front);
      assert a in rest;
    }
  }

  /** The latest answer is admitted whenever it lands, when it outversions the rest. */
  lemma LatestIsAdmitted(before: seq<Answer>, top: Answer)
    requires forall a :: a in before ==> a.since < top.since
    requires OutversionsTheRest(before, top) && top !in before
    ensures Says(Hear(HearAll(None, before), top), top)
  {
    HeardIsSaid(before);
  }

  lemma {:induction false} HearAllSplits(start: Option<Heard>, a: seq<Answer>, b: seq<Answer>)
    ensures HearAll(start, a + b) == HearAll(HearAll(start, a), b)
  {
    if b == [] {
      assert a + b == a;
    } else {
      HearAllSplits(start, a, b[..|b| - 1]);
      assert (a + b)[..|a + b| - 1] == a + b[..|b| - 1];
    }
  }

  lemma {:induction false} PlaceOf(order: seq<Answer>, top: Answer) returns (before: seq<Answer>, after: seq<Answer>)
    requires multiset(order)[top] == 1
    ensures order == before + [top] + after && top !in before && top !in after
  {
    assert top in multiset(order);
    var i :| 0 <= i < |order| && order[i] == top;
    before, after := order[..i], order[i + 1..];
    assert order == before + [top] + after;
    assert multiset(order) == multiset(before) + multiset{top} + multiset(after);
    assert top in before ==> multiset(before)[top] > 0;
    assert top in after ==> multiset(after)[top] > 0;
  }

  lemma {:induction false} OnceEach(answers: seq<Answer>, top: Answer)
    requires DistinctStamps(answers) && top in answers
    ensures multiset(answers)[top] == 1
  {
    var i :| 0 <= i < |answers| && answers[i] == top;
    var before, after := answers[..i], answers[i + 1..];
    assert answers == before + [top] + after;
    assert multiset(answers) == multiset(before) + multiset{top} + multiset(after);
    assert top !in before && top !in after;
  }

  /** A removal, an answer with no version, or one that outversions the rest. */
  ghost predicate Decides(answers: seq<Answer>, top: Answer) {
    top.Gone? || top.version.None? || OutversionsTheRest(answers, top)
  }

  /** Then every order ends at the answer of the read issued last. */
  lemma EveryOrderEndsAtTheLatest(answers: seq<Answer>, top: Answer, order: seq<Answer>)
    requires DistinctStamps(answers) && IsLatest(answers, top) && Decides(answers, top) && IsOrderOf(order, answers)
    ensures Says(HearAll(None, order), top)
  {
    OnceEach(answers, top);
    SameMembers(order, answers);
    var before, after := PlaceOf(order, top);
    Earlier(answers, top, order, before, after);
    LatestIsAdmitted(before, top);
    HearAllSplits(None, before + [top], after);
    HearAllSplits(None, before, [top]);
    assert HearAll(HearAll(None, before), [top]) == Hear(HearAll(None, before), top) by {
      assert HearAll(HearAll(None, before), []) == HearAll(None, before);
    }
    LatestStays(HearAll(None, before + [top]), top, after);
  }

  lemma Earlier(answers: seq<Answer>, top: Answer, order: seq<Answer>, before: seq<Answer>, after: seq<Answer>)
    requires DistinctStamps(answers) && IsLatest(answers, top)
    requires order == before + [top] + after && top !in before && top !in after
    requires forall a :: a in order <==> a in answers
    ensures forall a :: a in before || a in after ==> a in answers && a.since < top.since
  {
    forall a | a in before || a in after
      ensures a in answers && a.since < top.since
    {
      assert a in order;
      var i :| 0 <= i < |answers| && answers[i] == a;
      var j :| 0 <= j < |answers| && answers[j] == top;
      assert i != j;
    }
  }

  lemma TakeOut(answers: seq<Answer>, a: Answer) returns (rest: seq<Answer>)
    requires a in answers
    ensures multiset(answers) == multiset(rest) + multiset{a}
    ensures forall b :: b in answers && b != a ==> b in rest
  {
    var i :| 0 <= i < |answers| && answers[i] == a;
    rest := answers[..i] + answers[i + 1..];
    assert answers == answers[..i] + [a] + answers[i + 1..];
  }

  lemma LastTwo(rest: seq<Answer>, a: Answer, b: Answer)
    ensures HearAll(None, rest + [a] + [b]) == Hear(Hear(HearAll(None, rest), a), b)
  {
    var order := rest + [a] + [b];
    assert order[..|order| - 1] == rest + [a];
    assert (rest + [a])[..|rest|] == rest;
  }

  lemma RivalStays(seen: Option<Heard>, top: Answer, rival: Answer)
    requires top.Found? && top.version.Some? && rival.Found? && rival.version.Some?
    requires rival.version.value >= top.version.value && rival.since < top.since
    ensures !Says(Hear(Hear(seen, top), rival), top)
  {
  }

  /**
   And only then: when the latest answer is a found one at a version some other answer
   reaches, that other one landing last is kept.
   */
  lemma SomeOrderEndsElsewhere(answers: seq<Answer>, top: Answer)
    requires DistinctStamps(answers) && IsLatest(answers, top) && !Decides(answers, top)
    ensures exists order :: IsOrderOf(order, answers) && !Says(HearAll(None, order), top)
  {
    hide HearAll, Hear, Says;
    var rival :| rival in answers && rival != top && rival.Found? && rival.version.Some?
                 && rival.version.value >= top.version.value;
    var others := TakeOut(answers, top);
    var rest := TakeOut(others, rival);
    var order := rest + [top] + [rival];
    assert multiset(order) == multiset(rest) + multiset{top} + multiset{rival};
    LastTwo(rest, top, rival);
    StampsDiffer(answers, top, rival);
    RivalStays(HearAll(None, rest), top, rival);
    assert IsOrderOf(order, answers);
  }

  lemma StampsDiffer(answers: seq<Answer>, a: Answer, b: Answer)
    requires DistinctStamps(answers) && a in answers && b in answers && a != b
    ensures a.since != b.since
  {
    var i :| 0 <= i < |answers| && answers[i] == a;
    var j :| 0 <= j < |answers| && answers[j] == b;
    assert i != j;
  }

  /**
   Whatever mix of answers and removals lands, every order ends at the answer of the
   read issued last exactly when that answer is a removal, carries no version, or
   carries a version greater than every other answer's.
   */
  lemma ConvergesToTheLatestExactlyWhen(answers: seq<Answer>, top: Answer)
    requires DistinctStamps(answers) && IsLatest(answers, top)
    ensures (forall order :: IsOrderOf(order, answers) ==> Says(HearAll(None, order), top)) <==> Decides(answers, top)
  {
    if Decides(answers, top) {
      forall order | IsOrderOf(order, answers)
        ensures Says(HearAll(None, order), top)
      {
        EveryOrderEndsAtTheLatest(answers, top, order);
      }
    } else {
      SomeOrderEndsElsewhere(answers, top);
    }
  }

  ghost predicate AllVersioned(answers: seq<Answer>) {
    forall a :: a in answers ==> a.Found? && a.version.Some?
  }

  /** With versions and no removals the newest version wins, in whatever order and under whatever stamps. */
  lemma {:induction false} NewestVersionWins(answers: seq<Answer>)
    requires answers != [] && AllVersioned(answers)
    ensures var last := HearAll(None, answers);
            && last.Some? && !last.value.gone && last.value.version.Some?
            && (forall a :: a in answers ==> a.version.value <= last.value.version.value)
            && (exists a :: a in answers && a.version == last.value.version)
  {
    var front, a := answers[..|answers| - 1], answers[|answers| - 1];
    assert answers == front + [a] && a in answers;
    assert forall b :: b in front ==> b in answers;
    if front == [] {
      assert HearAll(None, front) == None;
    } else {
      NewestVersionWins(front);
    }
  }

  /** Then an answer is refused exactly when a greater version was heard; as great a one is heard again. */
  lemma RefusedExactlyWhenANewerVersionWasHeard(answers: seq<Answer>, version: nat, since: nat)
    requires AllVersioned(answers)
    ensures IsOlder(HearAll(None, answers), Found(Some(version), since))
       <==> exists a :: a in answers && a.version.value > version
  {
    if answers != [] {
      NewestVersionWins(answers);
    }
  }

  ghost predicate NoneVersioned(answers: seq<Answer>) {
    forall a :: a in answers && a.Found? ==> a.version.None?
  }

  /** Of answers that carry no version, and removals, the one of the latest stamp wins, in whatever order. */
  lemma {:induction false} LatestStampWins(answers: seq<Answer>)
    requires answers != [] && NoneVersioned(answers)
    ensures var last := HearAll(None, answers);
            && last.Some? && last.value.version.None?
            && (forall a :: a in answers ==> a.since <= last.value.since)
            && (exists a :: a in answers && a.since == last.value.since)
  {
    var front, a := answers[..|answers| - 1], answers[|answers| - 1];
    assert answers == front + [a] && a in answers;
    assert forall b :: b in front ==> b in answers;
    if front == [] {
      assert HearAll(None, front) == None;
    } else {
      LatestStampWins(front);
    }
  }

  /** And an answer is refused exactly when one of a later stamp was heard. */
  lemma RefusedExactlyWhenALaterOneWasHeard(answers: seq<Answer>, answer: Answer)
    requires NoneVersioned(answers)
    ensures IsOlder(HearAll(None, answers), answer) <==> exists a :: a in answers && a.since > answer.since
  {
    if answers != [] {
      LatestStampWins(answers);
    }
  }

  /** So two orders of the same versioned answers end at the same version. */
  lemma VersionedOrdersAgree(a: seq<Answer>, b: seq<Answer>)
    requires a != [] && AllVersioned(a) && IsOrderOf(b, a)
    ensures HearAll(None, a).Some? && HearAll(None, b).Some?
    ensures HearAll(None, a).value.version == HearAll(None, b).value.version
  {
    SameMembers(b, a);
    assert b != [] by {
      assert a[0] in b;
    }
    NewestVersionWins(a);
    NewestVersionWins(b);
  }

  /** While a record is removed at a stamp, no run of answers from reads issued before it changes anything. */
  lemma {:induction false} RemovalHolds(removed: Heard, late: seq<Answer>)
    requires removed.gone && forall a :: a in late ==> a.since < removed.since
    ensures HearAll(Some(removed), late) == Some(removed)
  {
    if late != [] {
      var front, a := late[..|late| - 1], late[|late| - 1];
      assert a in late;
      RemovalHolds(removed, front);
    }
  }
}
