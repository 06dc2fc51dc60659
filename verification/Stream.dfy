/**
 Where a push sits relative to the cursor, what a page of the stream says, and
 what the first catch-up may leave out (`apps/portal/src/realtime/stream.ts`).
 */
module Stream {
  import opened Options
  import opened Envelopes

  /** The last contiguous position applied; none until the first push or hello. */
  type Cursor = Option<int>

  datatype Placement = Next(cursor: int) | Seen | Gap(after: int)

  function Place(cursor: Cursor, seqNo: int): Placement {
    match cursor
    case None => Next(seqNo)
    case Some(at) =>
      if seqNo <= at then Seen
      else if seqNo == at + 1 then Next(seqNo)
      else Gap(at)
  }

  /** Where to replay from when a head is past the cursor. */
  function Behind(cursor: Cursor, head: int): Option<int> {
    if cursor.None? || head <= cursor.value then None else cursor
  }

  predicate IsLastPage(received: nat, limit: nat) {
    received < limit
  }

  const FIRST_CATCH_UP_MARGIN_MS := 15_000

  /** The server's time at which the page began reading, less the margin. */
  function ReadsBegan(helloSentAt: int, waitedMs: int): int {
    helloSentAt - waitedMs - FIRST_CATCH_UP_MARGIN_MS
  }

  function UpTo(page: seq<Record>, head: int): seq<Record> {
    if page == [] then []
    else (if page[0].seqNo <= head then [page[0]] else []) + UpTo(page[1..], head)
  }

  function ProducedSince(tail: seq<Record>, since: int): (r: seq<Record>)
    ensures |r| <= |tail|
  {
    if tail == [] then []
    else (if tail[0].producedAt >= since then [tail[0]] else []) + ProducedSince(tail[1..], since)
  }

  /** Of the stream's tail, the records produced since `since`; none when the tail cannot tell. */
  function TailSince(tail: seq<Record>, after: int, since: int): Option<seq<Record>> {
    var recent := ProducedSince(tail, since);
    if after > 0 && |tail| > 0 && |recent| == |tail| then None else Some(recent)
  }

  /** Where the first catch-up's one page starts. */
  function TailStart(head: int, pageSize: nat): int {
    if head - pageSize > 0 then head - pageSize else 0
  }

  // ---------------------------------------------------------------- the server

  /** Records of the stream in storage, oldest first, as every page is. */
  ghost predicate Oldest1st(records: seq<Record>) {
    forall i, j :: 0 <= i < j < |records| ==> records[i].seqNo < records[j].seqNo
  }

  /** The stored records after a position. */
  function After(stored: seq<Record>, after: int): seq<Record> {
    if stored == [] || stored[0].seqNo > after then stored else After(stored[1..], after)
  }

  /** The page the server answers: at most `limit` of the records after a position. */
  function ServerPage(stored: seq<Record>, after: int, limit: nat): seq<Record> {
    var rest := After(stored, after);
    if |rest| <= limit then rest else rest[..limit]
  }

  lemma {:induction false} AfterIsTheRest(stored: seq<Record>, after: int)
    requires Oldest1st(stored)
    ensures Oldest1st(After(stored, after))
    ensures forall r :: r in After(stored, after) <==> r in stored && r.seqNo > after
  {
    if stored != [] && stored[0].seqNo <= after {
      AfterIsTheRest(stored[1..], after);
      assert forall r :: r in stored <==> r == stored[0] || r in stored[1..];
    } else if stored != [] {
      forall r | r in stored
        ensures r.seqNo > after
      {
        var i :| 0 <= i < |stored| && stored[i] == r;
      }
    }
  }

  /** Distinct positions past `after` grow at least by one each. */
  lemma {:induction false} PositionsGrow(records: seq<Record>, after: int, j: nat)
    requires Oldest1st(records) && j < |records|
    requires forall r :: r in records ==> r.seqNo > after
    ensures records[j].seqNo >= after + 1 + j
  {
    if j > 0 {
      PositionsGrow(records, after, j - 1);
    } else {
      assert records[0] in records;
    }
  }

  lemma {:induction false} UpToKeeps(page: seq<Record>, head: int)
    ensures forall r :: r in UpTo(page, head) <==> r in page && r.seqNo <= head
  {
    if page != [] {
      UpToKeeps(page[1..], head);
      assert forall r :: r in page <==> r == page[0] || r in page[1..];
    }
  }

  lemma {:induction false} UpToOldest1st(page: seq<Record>, head: int)
    requires Oldest1st(page)
    ensures Oldest1st(UpTo(page, head))
  {
    if page != [] {
      UpToOldest1st(page[1..], head);
      UpToKeeps(page[1..], head);
      var rest := UpTo(page[1..], head);
      forall i | 0 <= i < |rest|
        ensures page[0].seqNo < rest[i].seqNo
      {
        assert rest[i] in page[1..];
      }
    }
  }

  /** A filter that drops nothing keeps everything; one that drops something says what it kept. */
  lemma {:induction false} ProducedSinceKeeps(tail: seq<Record>, since: int)
    ensures forall r :: r in ProducedSince(tail, since) <==> r in tail && r.producedAt >= since
    ensures |ProducedSince(tail, since)| == |tail| <==> forall r :: r in tail ==> r.producedAt >= since
  {
    if tail != [] {
      ProducedSinceKeeps(tail[1..], since);
      assert forall r :: r in tail <==> r == tail[0] || r in tail[1..];
    }
  }

  /**
   The tail tells what was produced since a time unless it does not reach back to the stream's
   start and everything in it is as recent; then it answers exactly what is.
   */
  lemma TheTailTellsExactlyWhen(tail: seq<Record>, after: int, since: int)
    ensures var recent := TailSince(tail, after, since);
            && (recent.None? <==> after > 0 && tail != [] && forall r :: r in tail ==> r.producedAt >= since)
            && (recent.Some? ==> forall r :: r in recent.value <==> r in tail && r.producedAt >= since)
  {
    hide ProducedSince;
    ProducedSinceKeeps(tail, since);
  }

  lemma {:induction false} ProducedSinceOldest1st(tail: seq<Record>, since: int)
    requires Oldest1st(tail)
    ensures Oldest1st(ProducedSince(tail, since))
  {
    if tail != [] {
      ProducedSinceOldest1st(tail[1..], since);
      ProducedSinceKeeps(tail[1..], since);
      var rest := ProducedSince(tail[1..], since);
      forall i | 0 <= i < |rest|
        ensures tail[0].seqNo < rest[i].seqNo
      {
        assert rest[i] in tail[1..];
      }
    }
  }

  /**
   Everything a tenant's stream ever held: the append numbers records from one with none
   left out, and production times go back by at most `slack` along the stream.
   */
  ghost predicate IsHistory(history: seq<Record>, slack: int) {
    && (forall i :: 0 <= i < |history| ==> history[i].seqNo == i + 1)
    && (forall i, j :: 0 <= i < j < |history| ==> history[i].producedAt <= history[j].producedAt + slack)
  }

  /** The server at one moment: what was appended up to `head`, and trimmed up to `floor`. */
  datatype Server = Server(floor: int, head: int)

  ghost predicate IsServer(history: seq<Record>, server: Server) {
    0 <= server.floor <= server.head <= |history|
  }

  /** Every record above the floor up to the head is stored. */
  function StoredAt(history: seq<Record>, server: Server): seq<Record>
    requires 0 <= server.floor <= server.head <= |history|
  {
    history[server.floor..server.head]
  }

  /** The first catch-up's page as a server answers it when it is not refused as trimmed, up to the hello's head. */
  function FirstTail(history: seq<Record>, server: Server, head: int, pageSize: nat): seq<Record>
    requires 0 <= server.floor <= server.head <= |history|
  {
    UpTo(ServerPage(StoredAt(history, server), TailStart(head, pageSize), pageSize), head)
  }

  lemma StoredIsOldest1st(history: seq<Record>, server: Server, slack: int)
    requires IsHistory(history, slack) && IsServer(history, server)
    ensures Oldest1st(StoredAt(history, server))
    ensures forall r :: r in StoredAt(history, server) <==> r in history && server.floor < r.seqNo <= server.head
  {
    var stored := StoredAt(history, server);
    assert forall i :: 0 <= i < |stored| ==> stored[i] == history[server.floor + i];
    forall r | r in history && server.floor < r.seqNo <= server.head
      ensures r in stored
    {
      var i :| 0 <= i < |history| && history[i] == r;
      assert stored[i - server.floor] == r;
    }
  }

  /** One page past the tail's start holds every record from there up to the head, and nothing else. */
  lemma FirstTailHoldsTheTail(history: seq<Record>, server: Server, head: int, pageSize: nat, slack: int)
    requires IsHistory(history, slack) && IsServer(history, server) && head <= server.head
    requires server.floor <= TailStart(head, pageSize)
    ensures forall r :: r in FirstTail(history, server, head, pageSize)
                   <==> r in history && TailStart(head, pageSize) < r.seqNo <= head
  {
    hide After, UpTo, IsHistory;
    var after, stored := TailStart(head, pageSize), StoredAt(history, server);
    StoredIsOldest1st(history, server, slack);
    AfterIsTheRest(stored, after);
    var rest, page := After(stored, after), ServerPage(stored, after, pageSize);
    UpToKeeps(page, head);
    forall r | r in history && after < r.seqNo <= head
      ensures r in page
    {
      assert r in rest;
      var j :| 0 <= j < |rest| && rest[j] == r;
      PositionsGrow(rest, after, j);
      assert page[j] == r;
    }
    assert forall r :: r in page ==> r in rest;
  }

  /** Every record up to the head that was produced since a time is among `recent`. */
  ghost predicate Complete(history: seq<Record>, head: int, since: int, recent: seq<Record>) {
    forall r :: r in history && r.seqNo <= head && r.producedAt >= since ==> r in recent
  }

  /**
   What the first catch-up answers leaves out no record up to the head produced since the
   page began reading, unless it answers with a read of everything.
   */
  ghost predicate LeavesOutNone(
      history: seq<Record>, server: Server, head: int, pageSize: nat, sentAt: int, waited: int)
    requires IsServer(history, server)
  {
    var tail, after := FirstTail(history, server, head, pageSize), TailStart(head, pageSize);
    var answer := TailSince(tail, after, ReadsBegan(sentAt, waited));
    answer.Some? ==> Complete(history, head, sentAt - waited, answer.value)
  }

  /** With production times that go back by no more than the margin, the first catch-up leaves out none. */
  lemma FirstCatchUpIsComplete(
      history: seq<Record>, server: Server, head: int, pageSize: nat, sentAt: int, waited: int, slack: int)
    requires IsHistory(history, slack) && slack <= FIRST_CATCH_UP_MARGIN_MS
    requires IsServer(history, server) && head <= server.head && pageSize > 0
    requires server.floor <= TailStart(head, pageSize)
    ensures LeavesOutNone(history, server, head, pageSize, sentAt, waited)
  {
    hide FirstTail, ProducedSince, StoredAt;
    var after, tail := TailStart(head, pageSize), FirstTail(history, server, head, pageSize);
    var since := ReadsBegan(sentAt, waited);
    FirstTailHoldsTheTail(history, server, head, pageSize, slack);
    ProducedSinceKeeps(tail, since);
    if TailSince(tail, after, since).Some? && after > 0 {
      assert history[head - 1] in tail;
      // Some record of the tail is older than `since` by the margin, and those before the tail are older than that.
      var earlier :| earlier in tail && earlier.producedAt < since;
      var j :| 0 <= j < |history| && history[j] == earlier;
      forall r | r in history && r.seqNo <= after
        ensures r.producedAt < sentAt - waited
      {
        var i :| 0 <= i < |history| && history[i] == r;
      }
    }
  }

  /** A stream whose last record before the tail was produced `slack` after the first of the tail. */
  function Disordered(head: nat, after: int, at: int, slack: int): (history: seq<Record>)
    ensures |history| == head
  {
    seq(head, i => Record("tasks.task.updated", "t", i + 1, if i == after then at - slack else at))
  }

  /** Past the margin some stream has a record left out. */
  lemma MoreDisorderMissesARecord(head: int, pageSize: nat, sentAt: int, waited: int, slack: int)
    requires head > pageSize > 0 && slack > FIRST_CATCH_UP_MARGIN_MS
    ensures var history := Disordered(head, head - pageSize, sentAt - waited, slack);
            && IsHistory(history, slack) && IsServer(history, Server(0, head))
            && !LeavesOutNone(history, Server(0, head), head, pageSize, sentAt, waited)
  {
    hide FirstTail, ProducedSince, StoredAt;
    var after, server, at := head - pageSize, Server(0, head), sentAt - waited;
    var history := Disordered(head, after, at, slack);
    FirstTailHoldsTheTail(history, server, head, pageSize, slack);
    var tail := FirstTail(history, server, head, pageSize);
    ProducedSinceKeeps(tail, ReadsBegan(sentAt, waited));
    assert history[after] in tail;
    assert history[after - 1] in history && history[after - 1] !in tail;
  }

  ghost predicate NeverLeavesOutAny(head: int, pageSize: nat, sentAt: int, waited: int, slack: int) {
    forall history, server ::
      IsHistory(history, slack) && IsServer(history, server)
      && head <= server.head && server.floor <= TailStart(head, pageSize) ==>
        LeavesOutNone(history, server, head, pageSize, sentAt, waited)
  }

  /** Past the first page, the margin allows for exactly as much disorder in production times as it is long. */
  lemma TheMarginIsExact(head: int, pageSize: nat, sentAt: int, waited: int, slack: int)
    requires head > pageSize > 0
    ensures NeverLeavesOutAny(head, pageSize, sentAt, waited, slack) <==> slack <= FIRST_CATCH_UP_MARGIN_MS
  {
    hide LeavesOutNone, IsHistory;
    if slack <= FIRST_CATCH_UP_MARGIN_MS {
      forall history, server | IsHistory(history, slack) && IsServer(history, server)
                               && head <= server.head && server.floor <= TailStart(head, pageSize)
        ensures LeavesOutNone(history, server, head, pageSize, sentAt, waited)
      {
        FirstCatchUpIsComplete(history, server, head, pageSize, sentAt, waited, slack);
      }
    } else {
      MoreDisorderMissesARecord(head, pageSize, sentAt, waited, slack);
    }
  }
}
