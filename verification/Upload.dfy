/**
 A file sent in parts straight to the store: ask which parts are missing, send each,
 and ask again until none is (`clients/typescript/src/store.ts`).
 */
module Upload {
  import opened Options

  newtype byte = x: int | 0 <= x < 256

  type Bytes = seq<byte>

  /** A part of the plan; parts are numbered from one. */
  datatype Part = Part(number: nat, offset: nat, size: nat)

  /** A started upload as the server and the store hold it. */
  datatype Started = Started(id: string, size: nat, plan: seq<Part>, held: map<nat, Bytes>)

  datatype Why = SizesDiffer | CallFailed | NotReached(part: nat) | Refused(part: nat) | KeptNone(part: nat)

  datatype Outcome = Confirmed(id: string) | Stopped(id: string, why: Why) | NeverStarted

  datatype PutAnswer = PutOk | PutRefused | PutLost

  // ------------------------------------------------------------ the plan

  /** Parts in order, each starting where the one before ended, from the first byte to the last. */
  predicate IsPlan(plan: seq<Part>, size: nat) {
    && (forall i :: 0 <= i < |plan| ==> plan[i].number == i + 1)
    && (forall i :: 0 <= i < |plan| ==> plan[i].offset == EndOf(plan[..i]))
    && EndOf(plan) == size
  }

  function EndOf(plan: seq<Part>): nat {
    if plan == [] then 0 else plan[|plan| - 1].offset + plan[|plan| - 1].size
  }

  /** The store takes a part only at its signed length. */
  predicate IsStarted(u: Started) {
    && IsPlan(u.plan, u.size)
    && (forall n :: n in u.held ==> 1 <= n <= |u.plan| && |u.held[n]| == u.plan[n - 1].size)
  }

  /** Bytes from an offset, cut short where the file ends. */
  function Slice(file: Bytes, offset: nat, size: nat): Bytes {
    if offset >= |file| then [] else if offset + size >= |file| then file[offset..] else file[offset..offset + size]
  }

  predicate NothingMissing(u: Started) {
    forall n :: 1 <= n <= |u.plan| ==> n in u.held
  }

  /** What the store holds, put together in the order of the plan. */
  function Assembled(u: Started, parts: nat): Bytes
    requires IsStarted(u) && NothingMissing(u) && parts <= |u.plan|
  {
    if parts == 0 then [] else Assembled(u, parts - 1) + u.held[parts]
  }

  lemma {:induction false} EndsGrow(plan: seq<Part>, size: nat, i: nat)
    requires IsPlan(plan, size) && i <= |plan|
    ensures EndOf(plan[..i]) <= size
    decreases |plan| - i
  {
    if i == |plan| {
      assert plan[..i] == plan;
    } else {
      EndsGrow(plan, size, i + 1);
      assert plan[..i + 1][i] == plan[i];
    }
  }

  lemma SliceHasItsLength(plan: seq<Part>, file: Bytes, i: nat)
    requires IsPlan(plan, |file|) && i < |plan|
    ensures plan[i].offset + plan[i].size <= |file|
    ensures Slice(file, plan[i].offset, plan[i].size) == file[plan[i].offset..plan[i].offset + plan[i].size]
  {
    EndsGrow(plan, |file|, i + 1);
    assert plan[..i + 1][i] == plan[i];
  }

  /** The part the store holds under a number is the file's. */
  ghost predicate HoldsPartOf(u: Started, n: nat, file: Bytes)
    requires IsStarted(u) && n in u.held
  {
    u.held[n] == Slice(file, u.plan[n - 1].offset, u.plan[n - 1].size)
  }

  ghost predicate HoldsPartsOf(u: Started, file: Bytes)
    requires IsStarted(u)
  {
    forall n :: n in u.held ==> HoldsPartOf(u, n, file)
  }

  lemma PlanSplits(plan: seq<Part>, size: nat, i: nat)
    requires IsPlan(plan, size) && i < |plan|
    ensures EndOf(plan[..i + 1]) == EndOf(plan[..i]) + plan[i].size <= size
    ensures plan[i].offset == EndOf(plan[..i])
  {
    EndsGrow(plan, size, i + 1);
    assert plan[..i + 1][i] == plan[i];
  }

  lemma {:induction false} AssembledUpTo(u: Started, file: Bytes, parts: nat)
    requires IsStarted(u) && NothingMissing(u) && u.size == |file| && parts <= |u.plan|
    ensures |Assembled(u, parts)| == EndOf(u.plan[..parts]) <= |file|
    ensures Assembled(u, parts) == file[..EndOf(u.plan[..parts])]
       <==> forall n :: 1 <= n <= parts ==> HoldsPartOf(u, n, file)
  {
    hide IsPlan, EndOf, Slice;
    if parts == 0 {
      NoParts(u.plan);
    } else {
      var before, part := EndOf(u.plan[..parts - 1]), u.plan[parts - 1];
      AssembledUpTo(u, file, parts - 1);
      SliceHasItsLength(u.plan, file, parts - 1);
      PlanSplits(u.plan, |file|, parts - 1);
      var front, last := file[..before], file[before..before + part.size];
      assert file[..before + part.size] == front + last;
      SplitAt(Assembled(u, parts - 1), u.held[parts], front, last);
      assert HoldsPartOf(u, parts, file) <==> u.held[parts] == last;
    }
  }

  lemma NoParts(plan: seq<Part>)
    ensures EndOf(plan[..0]) == 0
  {
  }

  lemma SplitAt(a: Bytes, b: Bytes, c: Bytes, d: Bytes)
    requires |a| == |c| && |b| == |d|
    ensures a + b == c + d <==> a == c && b == d
  {
    assert (a + b)[..|a|] == a && (a + b)[|a|..] == b;
    assert (c + d)[..|c|] == c && (c + d)[|c|..] == d;
  }

  /** With no part missing, what the store holds is the file exactly when every part it holds is the file's. */
  lemma AssembledIsTheFileExactlyWhen(u: Started, file: Bytes)
    requires IsStarted(u) && NothingMissing(u) && u.size == |file|
    ensures Assembled(u, |u.plan|) == file <==> HoldsPartsOf(u, file)
  {
    AssembledUpTo(u, file, |u.plan|);
    assert u.plan[..|u.plan|] == u.plan && file[..|file|] == file;
  }

  // ------------------------------------------------------------ the server and the store

  /** The same upload, holding what it held but perhaps lost, and perhaps one part newly kept. */
  ghost predicate KeptOrLost(before: Started, after: Started, part: Option<(nat, Bytes)>) {
    && after.id == before.id && after.size == before.size && after.plan == before.plan
    && forall n :: n in after.held ==>
         || (n in before.held && after.held[n] == before.held[n])
         || (part.Some? && part.value == (n, after.held[n]))
  }

  /** The first of the missing parts, as many as a window takes. */
  function MissingParts(u: Started, window: nat): seq<Part> {
    MissingUpTo(u, |u.plan|, window)
  }

  function MissingUpTo(u: Started, parts: nat, window: nat): (r: seq<Part>)
    requires parts <= |u.plan|
    ensures |r| <= window
  {
    if parts == 0 then []
    else
      var before := MissingUpTo(u, parts - 1, window);
      if parts in u.held || |before| == window then before else before + [u.plan[parts - 1]]
  }

  /** What one request for parts may answer: parts that are missing, each once, and some while any is. */
  ghost predicate IsIssued(u: Started, parts: seq<Part>) {
    && (forall k :: 0 <= k < |parts| ==>
          1 <= parts[k].number <= |u.plan| && u.plan[parts[k].number - 1] == parts[k] && parts[k].number !in u.held)
    && (forall j, k :: 0 <= j < k < |parts| ==> parts[j].number != parts[k].number)
    && (parts == [] ==> NothingMissing(u))
  }

  lemma {:induction false} MissingIsIssued(u: Started, parts: nat, window: nat)
    requires IsStarted(u) && parts <= |u.plan| && window > 0
    ensures var r := MissingUpTo(u, parts, window);
            && (forall k :: 0 <= k < |r| ==>
                  1 <= r[k].number <= parts && u.plan[r[k].number - 1] == r[k] && r[k].number !in u.held)
            && (forall j, k :: 0 <= j < k < |r| ==> r[j].number != r[k].number)
            && (r == [] ==> forall n :: 1 <= n <= parts ==> n in u.held)
  {
    hide IsPlan;
    if parts > 0 {
      NumberOf(u, parts - 1);
      MissingIsIssued(u, parts - 1, window);
    }
  }

  lemma NumberOf(u: Started, i: nat)
    requires IsStarted(u) && i < |u.plan|
    ensures u.plan[i].number == i + 1
  {
  }

  /** How one request for parts goes: whether it fails, what the store has lost by then, and the window it answers. */
  datatype Asking = Asking(fails: bool, lost: set<nat>, window: nat)

  /** How sending one part goes: whether it arrives, whether the store takes it and keeps it, and what it has lost. */
  datatype Sending = Sending(reaches: bool, takes: bool, keeps: bool, lost: set<nat>)

  /** Everything the API and the store do during a call, request by request and part by part. */
  datatype Script = Script(asking: nat -> Asking, sending: nat -> Sending, confirms: bool)

  function Lost(u: Started, lost: set<nat>): Started {
    u.(held := u.held - lost)
  }

  /** The parts a request answers; none when it fails. */
  function PartsIssued(u: Started, asking: Asking): Option<seq<Part>> {
    if asking.fails then None else Some(MissingParts(u, if asking.window == 0 then 1 else asking.window))
  }

  lemma AskedForParts(u: Started, asking: Asking)
    requires IsStarted(u)
    ensures var after := Lost(u, asking.lost);
            && IsStarted(after) && KeptOrLost(u, after, None)
            && (!asking.fails ==> IsIssued(after, PartsIssued(after, asking).value))
  {
    hide IsPlan;
    var after := Lost(u, asking.lost);
    StillStarted(u, asking.lost);
    MissingIsIssued(after, |after.plan|, if asking.window == 0 then 1 else asking.window);
  }

  lemma StillStarted(u: Started, lost: set<nat>)
    requires IsStarted(u)
    ensures IsStarted(Lost(u, lost))
  {
    hide IsPlan;
  }

  /** The store refuses a part it does not take, and one of any length but its own. */
  function PutAnswerTo(part: Part, body: Bytes, sending: Sending): PutAnswer {
    if !sending.reaches then PutLost
    else if sending.takes && |body| == part.size then PutOk
    else PutRefused
  }

  /** What the store holds after a part was sent: a part may be kept though its answer is lost. */
  function AfterPut(u: Started, part: Part, body: Bytes, sending: Sending): Started {
    var left := Lost(u, sending.lost);
    if sending.takes && sending.keeps && |body| == part.size
    then left.(held := left.held[part.number := body])
    else left
  }

  lemma PutIsKeptOrLost(u: Started, part: Part, body: Bytes, sending: Sending)
    requires IsStarted(u) && 1 <= part.number <= |u.plan| && u.plan[part.number - 1] == part
    ensures IsStarted(AfterPut(u, part, body, sending))
    ensures KeptOrLost(u, AfterPut(u, part, body, sending), Some((part.number, body)))
  {
    hide IsPlan;
    StillStarted(u, sending.lost);
  }

  /** No request or part fails, every part that arrives is kept, nothing is lost, and the call is confirmed. */
  ghost predicate IsReliable(script: Script) {
    && (forall k :: !script.asking(k).fails && script.asking(k).lost == {})
    && (forall k :: script.sending(k) == Sending(true, true, true, {}))
    && script.confirms
  }

  // ------------------------------------------------------------ one call

  /** What a call sent and kept: every part it sent is the file's, and every other is as it was. */
  ghost predicate SentFrom(before: Started, after: Started, sent: set<nat>, file: Bytes)
    requires IsStarted(before) && IsStarted(after)
  {
    && after.id == before.id && after.size == before.size && after.plan == before.plan
    && forall n :: n in after.held ==>
         || (n in sent && HoldsPartOf(after, n, file))
         || (n in before.held && after.held[n] == before.held[n])
  }

  function Numbers(n: nat): (r: set<nat>)
    ensures forall k :: k in r <==> 1 <= k <= n
    ensures |r| == n
  {
    if n == 0 then {} else Numbers(n - 1) + {n}
  }

  lemma {:induction false} FewerThanAll(some: set<nat>, all: set<nat>)
    requires some <= all
    ensures |some| <= |all|
  {
    if some != {} {
      var x :| x in some;
      FewerThanAll(some - {x}, all - {x});
    }
  }

  lemma AskKeepsSent(before: Started, u: Started, after: Started, sent: set<nat>, file: Bytes)
    requires IsStarted(before) && IsStarted(u) && IsStarted(after)
    requires SentFrom(before, u, sent, file) && KeptOrLost(u, after, None)
    ensures SentFrom(before, after, sent, file)
  {
    hide Slice, IsPlan;
  }

  lemma PutKeepsSent(before: Started, u: Started, after: Started, sent: set<nat>, part: Part, body: Bytes, file: Bytes)
    requires IsStarted(before) && IsStarted(u) && IsStarted(after)
    requires 1 <= part.number <= |u.plan| && u.plan[part.number - 1] == part
    requires SentFrom(before, u, sent, file) && KeptOrLost(u, after, Some((part.number, body)))
    requires body == Slice(file, part.offset, part.size)
    ensures SentFrom(before, after, sent + {part.number}, file)
  {
    hide Slice, IsPlan;
  }

  /** Under a store that keeps what it takes: what was held at first and what was sent, and nothing else. */
  ghost predicate KeepsAll(before: Started, after: Started, sent: set<nat>) {
    && after.held.Keys == before.held.Keys + sent && before.held.Keys !! sent
    && forall n :: n in before.held ==> after.held[n] == before.held[n]
  }

  lemma AskKeepsAll(before: Started, u: Started, sent: set<nat>, asking: Asking)
    requires KeepsAll(before, u, sent) && asking.lost == {}
    ensures KeepsAll(before, Lost(u, asking.lost), sent)
  {
    assert u.held - asking.lost == u.held;
  }

  lemma PutKeepsAll(before: Started, u: Started, sent: set<nat>, part: Part, body: Bytes, sending: Sending)
    requires KeepsAll(before, u, sent) && part.number !in u.held && |body| == part.size
    requires sending == Sending(true, true, true, {})
    ensures KeepsAll(before, AfterPut(u, part, body, sending), sent + {part.number})
    ensures PutAnswerTo(part, body, sending) == PutOk
  {
    assert u.held - {} == u.held;
  }

  /** Why a call ended as it did: each way of stopping has its cause in what the API and the store did. */
  ghost predicate EndsRightly(
      script: Script, file: Bytes, started: Started, r: Outcome, after: Started,
      puts: seq<nat>, asked: nat, sent: set<nat>)
  {
    match r
    case NeverStarted => false
    case Confirmed(id) => id == started.id && started.size == |file| && NothingMissing(after) && script.confirms
    case Stopped(id, why) =>
      && id == started.id
      && match why {
           case SizesDiffer => started.size != |file| && puts == [] && asked == 0 && after == started
           case CallFailed =>
             asked > 0 && (script.asking(asked - 1).fails || (NothingMissing(after) && !script.confirms))
           case NotReached(part) =>
             puts != [] && part == puts[|puts| - 1] && !script.sending(|puts| - 1).reaches
           case Refused(part) =>
             puts != [] && part == puts[|puts| - 1] && !script.sending(|puts| - 1).takes
           case KeptNone(part) => part in sent && part !in after.held
         }
  }

  /**
   One call over an upload that is started. It sends each part at most once, asks for
   parts at most once more than there are parts, and confirms only once the store
   misses none. Every part it sent is the file's, and it leaves the others alone.
   When nothing fails and the store keeps what it takes, it sends each missing part
   once and confirms.
   */
  method SendAndConfirm(file: Bytes, started: Started, script: Script)
    returns (r: Outcome, after: Started, puts: seq<nat>, asked: nat, sent: set<nat>)
    requires IsStarted(started)
    ensures IsStarted(after) && SentFrom(started, after, sent, file)
    ensures forall j, k :: 0 <= j < k < |puts| ==> puts[j] != puts[k]
    ensures |puts| <= |started.plan| && asked <= |started.plan| + 1
    ensures |sent| == |puts| && forall n :: n in sent <==> n in puts
    ensures started.size == |file| <==> !(r.Stopped? && r.why.SizesDiffer?)
    ensures EndsRightly(script, file, started, r, after, puts, asked, sent)
    ensures IsReliable(script) && started.size == |file| ==>
              && r.Confirmed? && KeepsAll(started, after, sent)
              && sent == Numbers(|started.plan|) - started.held.Keys
  {
    hide IsPlan, Slice, HoldsPartOf, KeptOrLost, KeepsAll, AfterPut, PutAnswerTo, PartsIssued, IsReliable, Numbers,
         Lost;
    puts, asked, sent, after := [], 0, {}, started;
    if started.size != |file| {
      return Stopped(started.id, SizesDiffer), after, puts, asked, sent;
    }
    NothingSentYet(started);
    while true
      invariant IsStarted(after) && SentFrom(started, after, sent, file)
      invariant forall j, k :: 0 <= j < k < |puts| ==> puts[j] != puts[k]
      invariant forall n :: n in sent <==> n in puts
      invariant sent <= Numbers(|started.plan|) && |sent| == |puts| && asked <= |puts|
      invariant IsReliable(script) ==> KeepsAll(started, after, sent)
      decreases |started.plan| + 1 - |puts|
    {
      FewerThanAll(sent, Numbers(|started.plan|));
      var asking := script.asking(asked);
      ghost var was := after;
      AskedForParts(was, asking);
      after := Lost(after, asking.lost);
      AskKeepsSent(started, was, after, sent, file);
      if IsReliable(script) {
        Reliably(script, asked, |puts|);
        AskKeepsAll(started, was, sent, asking);
      }
      var parts := PartsIssued(after, asking);
      IssuedUnlessItFails(after, asking);
      asked := asked + 1;
      if parts.None? {
        return Stopped(started.id, CallFailed), after, puts, asked, sent;
      }
      if parts.value == [] {
        break;
      }
      var stop: Option<Why>;
      stop, after, puts, sent := SendParts(file, started, after, script, parts.value, puts, sent);
      if stop.Some? {
        return Stopped(started.id, stop.value), after, puts, asked, sent;
      }
    }
    if IsReliable(script) {
      AllSent(started, after, sent);
      Reliably(script, 0, 0);
    }
    r := if script.confirms then Confirmed(started.id) else Stopped(started.id, CallFailed);
  }

  /** One answer's parts, each sent as the file's slice, until one is not taken or was sent before. */
  method SendParts(
      file: Bytes, started: Started, before: Started, script: Script, parts: seq<Part>,
      done: seq<nat>, already: set<nat>)
    returns (stop: Option<Why>, after: Started, puts: seq<nat>, sent: set<nat>)
    requires IsStarted(started) && IsStarted(before) && SentFrom(started, before, already, file)
    requires IsIssued(before, parts) && parts != [] && started.size == |file|
    requires forall j, k :: 0 <= j < k < |done| ==> done[j] != done[k]
    requires forall n :: n in already <==> n in done
    requires already <= Numbers(|started.plan|) && |already| == |done|
    requires IsReliable(script) ==> KeepsAll(started, before, already)
    ensures IsStarted(after) && SentFrom(started, after, sent, file)
    ensures forall j, k :: 0 <= j < k < |puts| ==> puts[j] != puts[k]
    ensures forall n :: n in sent <==> n in puts
    ensures sent <= Numbers(|started.plan|) && |sent| == |puts| && |done| <= |puts| <= |started.plan|
    ensures stop.None? ==> |puts| == |done| + |parts|
    ensures InTurn(done, puts, parts)
    ensures IsReliable(script) ==> stop.None? && KeepsAll(started, after, sent)
    ensures stop.Some? ==>
              match stop.value
              case NotReached(part) =>
                puts != [] && part == puts[|puts| - 1] && !script.sending(|puts| - 1).reaches
              case Refused(part) =>
                puts != [] && part == puts[|puts| - 1] && !script.sending(|puts| - 1).takes
              case KeptNone(part) => part in sent && part !in after.held
              case _ => false
  {
    hide IsPlan, Slice, HoldsPartOf, KeptOrLost, KeepsAll, AfterPut, PutAnswerTo, IsReliable, Numbers, SentFrom,
         InTurn;
    NoneInTurn(done, parts);
    stop, after, puts, sent := None, before, done, already;
    FewerThanAll(sent, Numbers(|started.plan|));
    SentFromSamePlan(started, before, already, file);
    for i := 0 to |parts|
      invariant IsStarted(after) && SentFrom(started, after, sent, file)
      invariant before.plan == after.plan
      invariant forall j, k :: 0 <= j < k < |puts| ==> puts[j] != puts[k]
      invariant forall n :: n in sent <==> n in puts
      invariant sent <= Numbers(|started.plan|) && |sent| == |puts| == |done| + i && |puts| <= |started.plan|
      invariant InTurn(done, puts, parts)
      invariant forall k :: i <= k < |parts| ==> parts[k].number !in after.held
      invariant IsReliable(script) ==> KeepsAll(started, after, sent)
    {
      var part := parts[i];
      if part.number in sent {
        if IsReliable(script) {
          SentIsHeld(started, after, sent, part.number);
        }
        return Some(KeptNone(part.number)), after, puts, sent;
      }
      var body, sending := Slice(file, part.offset, part.size), script.sending(|puts|);
      ghost var unsent := after;
      PutIsKeptOrLost(unsent, part, body, sending);
      after := AfterPut(after, part, body, sending);
      PutKeepsSent(started, unsent, after, sent, part, body, file);
      PutTouchesOne(unsent, after, part, body, parts, i);
      SliceFits(started, file, part);
      if IsReliable(script) {
        Reliably(script, 0, |puts|);
        PutKeepsAll(started, unsent, sent, part, body, sending);
      }
      OneMoreInTurn(done, puts, parts, i);
      sent, puts := sent + {part.number}, puts + [part.number];
      FewerThanAll(sent, Numbers(|started.plan|));
      var answer := PutAnswerTo(part, body, sending);
      AnswerHasItsCause(part, body, sending);
      if answer == PutLost {
        return Some(NotReached(part.number)), after, puts, sent;
      }
      if answer == PutRefused {
        return Some(Refused(part.number)), after, puts, sent;
      }
    }
  }

  /** After what was sent before, the parts one answer named are sent in its order. */
  ghost predicate InTurn(done: seq<nat>, puts: seq<nat>, parts: seq<Part>) {
    && done <= puts && |puts| <= |done| + |parts|
    && forall k :: |done| <= k < |puts| ==> puts[k] == parts[k - |done|].number
  }

  lemma NoneInTurn(done: seq<nat>, parts: seq<Part>)
    ensures InTurn(done, done, parts)
  {
  }

  lemma OneMoreInTurn(done: seq<nat>, puts: seq<nat>, parts: seq<Part>, i: nat)
    requires InTurn(done, puts, parts) && |puts| == |done| + i && i < |parts|
    ensures InTurn(done, puts + [parts[i].number], parts)
  {
  }

  lemma SentFromSamePlan(before: Started, after: Started, sent: set<nat>, file: Bytes)
    requires IsStarted(before) && IsStarted(after) && SentFrom(before, after, sent, file)
    ensures after.plan == before.plan && after.size == before.size
  {
  }

  lemma AnswerHasItsCause(part: Part, body: Bytes, sending: Sending)
    requires |body| == part.size
    ensures PutAnswerTo(part, body, sending) == PutLost ==> !sending.reaches
    ensures PutAnswerTo(part, body, sending) == PutRefused ==> !sending.takes
  {
  }

  lemma IssuedUnlessItFails(u: Started, asking: Asking)
    ensures PartsIssued(u, asking).None? <==> asking.fails
  {
  }

  lemma SliceFits(started: Started, file: Bytes, part: Part)
    requires IsStarted(started) && started.size == |file|
    requires 1 <= part.number <= |started.plan| && started.plan[part.number - 1] == part
    ensures |Slice(file, part.offset, part.size)| == part.size
  {
    hide IsPlan;
    SliceHasItsLength(started.plan, file, part.number - 1);
  }

  lemma Reliably(script: Script, i: nat, j: nat)
    requires IsReliable(script)
    ensures !script.asking(i).fails && script.asking(i).lost == {}
    ensures script.sending(j) == Sending(true, true, true, {}) && script.confirms
  {
  }

  lemma NothingSentYet(started: Started)
    ensures KeepsAll(started, started, {}) && {} <= Numbers(|started.plan|)
  {
  }

  lemma SentIsHeld(before: Started, after: Started, sent: set<nat>, n: nat)
    requires KeepsAll(before, after, sent) && n in sent
    ensures n in after.held
  {
  }

  /** With nothing missing in the end, what was sent is what was missing at first. */
  lemma AllSent(started: Started, after: Started, sent: set<nat>)
    requires IsStarted(started) && IsStarted(after) && after.plan == started.plan
    requires KeepsAll(started, after, sent) && NothingMissing(after) && sent <= Numbers(|started.plan|)
    ensures sent == Numbers(|started.plan|) - started.held.Keys
  {
    hide IsPlan;
    forall n | n in Numbers(|started.plan|) - started.held.Keys
      ensures n in sent
    {
      assert n in after.held.Keys;
    }
  }

  lemma PutTouchesOne(before: Started, after: Started, part: Part, body: Bytes, parts: seq<Part>, i: nat)
    requires IsStarted(before) && IsStarted(after) && i < |parts| && parts[i] == part
    requires KeptOrLost(before, after, Some((part.number, body)))
    requires forall j, k :: 0 <= j < k < |parts| ==> parts[j].number != parts[k].number
    requires forall k :: i <= k < |parts| ==> parts[k].number !in before.held
    ensures forall k :: i < k < |parts| ==> parts[k].number !in after.held
    ensures after.plan == before.plan
  {
    hide IsPlan;
  }

  lemma PartsStayTheFiles(before: Started, after: Started, sent: set<nat>, file: Bytes)
    requires IsStarted(before) && IsStarted(after)
    requires SentFrom(before, after, sent, file) && HoldsPartsOf(before, file)
    ensures HoldsPartsOf(after, file)
  {
    hide Slice, IsPlan;
    forall n | n in after.held
      ensures HoldsPartOf(after, n, file)
    {
      if n in before.held && after.held[n] == before.held[n] {
        assert HoldsPartOf(before, n, file);
      }
    }
  }

  lemma PartsWereTheFiles(before: Started, after: Started, sent: set<nat>, file: Bytes)
    requires IsStarted(before) && IsStarted(after) && SentFrom(before, after, sent, file)
    requires KeepsAll(before, after, sent) && HoldsPartsOf(after, file)
    ensures HoldsPartsOf(before, file)
  {
    hide Slice, IsPlan;
    forall n | n in before.held
      ensures HoldsPartOf(before, n, file)
    {
      assert n in after.held.Keys && HoldsPartOf(after, n, file);
    }
  }

  /**
   A file sent by a new upload or by one to go on with; `answer` is what the API says
   of it. Nothing is thrown away once the upload exists: every failure stops it under
   its id. Confirmed, over parts that were all this file's, the store holds the file.
   When nothing fails and the store keeps what it takes, a call over an upload of the
   file's size confirms; going on over parts the store holds, what is confirmed is the
   file exactly when those parts were the file's.
   */
  method UploadFile(file: Bytes, fileId: Option<string>, answer: Option<Started>, script: Script)
    returns (r: Outcome, after: Option<Started>, puts: seq<nat>, asked: nat)
    requires answer.Some? ==> IsStarted(answer.value) && (fileId.Some? ==> answer.value.id == fileId.value)
    ensures after.Some? <==> answer.Some?
    ensures r.NeverStarted? <==> fileId.None? && answer.None?
    ensures answer.None? && fileId.Some? ==> r == Stopped(fileId.value, CallFailed) && puts == []
    ensures answer.Some? ==> !r.NeverStarted? && r.id == answer.value.id && IsStarted(after.value)
    ensures answer.Some? && HoldsPartsOf(answer.value, file) ==> HoldsPartsOf(after.value, file)
    ensures r.Confirmed? ==> answer.Some? && after.value.size == |file| && NothingMissing(after.value)
    ensures r.Confirmed? && HoldsPartsOf(answer.value, file) ==> Assembled(after.value, |after.value.plan|) == file
    ensures forall j, k :: 0 <= j < k < |puts| ==> puts[j] != puts[k]
    ensures answer.Some? ==> asked <= |answer.value.plan| + 1
    ensures answer.Some? && answer.value.size == |file| && IsReliable(script) ==>
              && r.Confirmed? && (forall n :: n in puts <==> 1 <= n <= |answer.value.plan| && n !in answer.value.held)
              && (Assembled(after.value, |after.value.plan|) == file <==> HoldsPartsOf(answer.value, file))
  {
    hide IsPlan, Slice, HoldsPartOf, Assembled, NothingMissing, IsReliable, KeepsAll;
    puts, asked, after := [], 0, answer;
    if answer.None? {
      r := if fileId.None? then NeverStarted else Stopped(fileId.value, CallFailed);
      return;
    }
    var left: Started, sent: set<nat>;
    r, left, puts, asked, sent := SendAndConfirm(file, answer.value, script);
    after := Some(left);
    if HoldsPartsOf(answer.value, file) {
      PartsStayTheFiles(answer.value, left, sent, file);
    }
    if r.Confirmed? {
      AssembledIsTheFileExactlyWhen(left, file);
      if IsReliable(script) && HoldsPartsOf(left, file) {
        PartsWereTheFiles(answer.value, left, sent, file);
      }
    }
  }

  // ------------------------------------------------------------ stopped and gone on with

  /** Calls over one upload, each going on from what the one before left. */
  ghost predicate GoesOn(states: seq<Started>, sents: seq<set<nat>>, file: Bytes) {
    && |states| == |sents| + 1
    && (forall i :: 0 <= i < |states| ==> IsStarted(states[i]))
    && (forall i :: 0 <= i < |sents| ==> SentFrom(states[i], states[i + 1], sents[i], file))
  }

  /** However often a new upload was stopped and gone on with, what the store holds is the file's. */
  lemma {:induction false} GoingOnKeepsTheFile(states: seq<Started>, sents: seq<set<nat>>, file: Bytes)
    requires GoesOn(states, sents, file) && states[0].held == map[]
    ensures HoldsPartsOf(states[|states| - 1], file)
  {
    hide SentFrom, IsPlan, Slice;
    if sents != [] {
      var last := |sents| - 1;
      GoingOnKeepsTheFile(states[..last + 1], sents[..last], file);
      PartsStayTheFiles(states[last], states[last + 1], sents[last], file);
    }
  }

  /** So once no part is missing the store holds the file. */
  lemma {:induction false} GoneOnWithToTheEnd(states: seq<Started>, sents: seq<set<nat>>, file: Bytes)
    requires GoesOn(states, sents, file) && states[0].held == map[]
    requires var u := states[|states| - 1]; u.size == |file| && NothingMissing(u)
    ensures Assembled(states[|states| - 1], |states[|states| - 1].plan|) == file
  {
    hide SentFrom, IsPlan, Slice;
    GoingOnKeepsTheFile(states, sents, file);
    AssembledIsTheFileExactlyWhen(states[|states| - 1], file);
  }

  /** A store that answers, takes and keeps everything. */
  function Reliable(): (script: Script)
    ensures IsReliable(script)
  {
    Script(k => Asking(false, {}, 1), k => Sending(true, true, true, {}), true)
  }

  /** An upload of one part, holding another file's bytes. */
  function OnePartOf(id: string, other: Bytes): (u: Started)
    ensures IsStarted(u) && u.id == id && u.size == |other| && 1 in u.held && u.held[1] == other
  {
    var u := Started(id, |other|, [Part(1, 0, |other|)], map[1 := other]);
    assert u.plan[..0] == [];
    u
  }

  /**
   Going on compares sizes only: given an upload that holds another file of the same
   size, the call confirms it and sends nothing, and what is confirmed is not the file.
   */
  method GoOnWithAnotherFile(id: string, file: Bytes, other: Bytes) returns (r: Outcome, puts: seq<nat>, held: Bytes)
    requires |file| == |other| && file != other
    ensures r == Confirmed(id) && puts == [] && held == other
  {
    hide IsPlan, Slice, IsReliable;
    var started := OnePartOf(id, other);
    var after, asked, sent;
    r, after, puts, asked, sent := SendAndConfirm(file, started, Reliable());
    OnePartIsAll(started, other);
    assert sent == {};
    held := after.held[1];
  }

  lemma OnePartIsAll(u: Started, other: Bytes)
    requires u == OnePartOf(u.id, other)
    ensures Numbers(|u.plan|) - u.held.Keys == {}
  {
  }
}
