/**
 The frames of the realtime channel and the records of the change stream, as
 `apps/portal/src/realtime/envelopes.ts` names them. Frames arrive parsed.
 */
module Envelopes {
  import opened Options
  import opened Strings

  /** What an `entity_changed` push carries; `version` is absent on a record read back from the stream. */
  datatype Change = Change(kind: string, target: string, seqNo: int, version: Option<nat>)

  /** One record of the stream in storage. */
  datatype Record = Record(kind: string, target: string, seqNo: int, producedAt: int)

  /** A frame: `Other` stands for every frame that neither moves the cursor nor names a position. */
  datatype Envelope =
    | Hello(head: int, sentAt: Option<int>)
    | Pong(head: int)
    | Changed(change: Change)
    | Other

  /** A stored record as the push it would have been. */
  function ChangeOf(record: Record): Change {
    Change(record.kind, record.target, record.seqNo, None)
  }

  function ChangesOf(records: seq<Record>): (cs: seq<Change>)
    ensures |cs| == |records|
    ensures forall i :: 0 <= i < |cs| ==> cs[i] == ChangeOf(records[i])
  {
    seq(|records|, i requires 0 <= i < |records| => ChangeOf(records[i]))
  }

  /** The entity inside `<namespace>.<entity>.<action>`; the kind itself when it has no dot. */
  function EntityOf(kind: string): string {
    var dot := IndexOf(kind, '.', 0);
    if dot == |kind| then kind else kind[dot + 1..IndexOf(kind, '.', dot + 1)]
  }

  const REMINDED_KIND := "tasks.task.reminded"

  /** Whether the person is told about a change, and not only refreshed by it. */
  predicate IsNotice(change: Change) {
    change.kind == REMINDED_KIND
  }

  /** The notices among some changes, in their order. */
  function Notices(changes: seq<Change>): seq<Change> {
    if changes == [] then []
    else
      var c := changes[|changes| - 1];
      Notices(changes[..|changes| - 1]) + (if IsNotice(c) then [c] else [])
  }

  /** Each later element carries a greater sequence number. */
  ghost predicate Ascending(changes: seq<Change>) {
    forall i, j :: 0 <= i < j < |changes| ==> changes[i].seqNo < changes[j].seqNo
  }

  lemma {:induction false} NoticesSound(xs: seq<Change>)
    ensures forall n :: n in Notices(xs) <==> n in xs && IsNotice(n)
  {
    if xs != [] {
      NoticesSound(xs[..|xs| - 1]);
      assert xs == xs[..|xs| - 1] + [xs[|xs| - 1]];
    }
  }

  lemma {:induction false} NoticesAppend(xs: seq<Change>, ys: seq<Change>)
    ensures Notices(xs + ys) == Notices(xs) + Notices(ys)
  {
    if ys == [] {
      assert xs + ys == xs;
    } else {
      var front, c := ys[..|ys| - 1], ys[|ys| - 1];
      var tail := if IsNotice(c) then [c] else [];
      var both := xs + ys;
      assert both[..|both| - 1] == xs + front && both[|both| - 1] == c;
      NoticesAppend(xs, front);
      assert Notices(both) == (Notices(xs) + Notices(front)) + tail;
    }
  }

  lemma {:induction false} NoticesAscending(xs: seq<Change>)
    requires Ascending(xs)
    ensures Ascending(Notices(xs))
  {
    if xs != [] {
      var front := xs[..|xs| - 1];
      NoticesAscending(front);
      NoticesSound(front);
      forall i | 0 <= i < |Notices(front)|
        ensures Notices(front)[i].seqNo < xs[|xs| - 1].seqNo
      {
        assert Notices(front)[i] in front;
      }
    }
  }
}
