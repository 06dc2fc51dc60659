/** Tasks, the orders of their lists, and sorting by them (`apps/portal/src/queries/taskPlacement.ts`). */
module TaskOrder {
  import opened Options
  import opened Ranks

  datatype Status = OpenTask | DoneTask

  /** `updatedAt` is the instant in microseconds, the precision the server orders by. */
  datatype Task = Task(
    id: string, status: Status, rank: Rank, updatedAt: int, version: nat, title: string,
    assignee: Option<string>, createdBy: string, deleted: bool, archived: bool)

  function CompareIds(a: string, b: string): int {
    if IdLess(a, b) then -1 else if IdLess(b, a) then 1 else 0
  }

  function CompareOpen(a: Task, b: Task): int {
    var byRank := CompareRank(a.rank, b.rank);
    if byRank != 0 then byRank else CompareIds(a.id, b.id)
  }

  /** Newest first: the later instant, then the larger id. */
  function CompareDone(a: Task, b: Task): int {
    var at := b.updatedAt - a.updatedAt;
    if at != 0 then at else CompareIds(b.id, a.id)
  }

  function Compare(status: Status, a: Task, b: Task): int {
    if status.OpenTask? then CompareOpen(a, b) else CompareDone(a, b)
  }

  predicate Before(status: Status, a: Task, b: Task) {
    Compare(status, a, b) < 0
  }

  /** Where a task stands in a list, before its id decides. */
  function Place(status: Status, t: Task): real {
    if status.OpenTask? then Value(t.rank) else -(t.updatedAt as real)
  }

  predicate IdBefore(status: Status, a: string, b: string) {
    if status.OpenTask? then IdLess(a, b) else IdLess(b, a)
  }

  /** The list orders are lexicographic: by the number the rank writes or the instant, then by id. */
  lemma CompareIsLexicographic(status: Status, a: Task, b: Task)
    ensures Before(status, a, b) <==>
              || Place(status, a) < Place(status, b)
              || (Place(status, a) == Place(status, b) && IdBefore(status, a.id, b.id))
    ensures Compare(status, a, b) == 0 <==> Place(status, a) == Place(status, b) && a.id == b.id
    ensures Compare(status, a, b) > 0 <==> Before(status, b, a)
  {
    hide CompareRank, IdLess, Value;
    CompareRankIsExact(a.rank, b.rank);
    CompareRankIsExact(b.rank, a.rank);
    IdLessIsTotal(a.id, b.id);
    IdLessIsTotal(b.id, a.id);
  }

  lemma BeforeIsTransitive(status: Status, a: Task, b: Task, c: Task)
    requires !Before(status, b, a) && !Before(status, c, b)
    ensures !Before(status, c, a)
    ensures Before(status, a, b) || Before(status, b, c) ==> Before(status, a, c)
  {
    hide Compare, Before, Place, IdLess;
    CompareIsLexicographic(status, a, b);
    CompareIsLexicographic(status, b, c);
    CompareIsLexicographic(status, a, c);
    CompareIsLexicographic(status, b, a);
    CompareIsLexicographic(status, c, b);
    CompareIsLexicographic(status, c, a);
    IdsAreOrdered(a.id, b.id, c.id);
  }

  lemma IdsAreOrdered(a: string, b: string, c: string)
    ensures a == b || IdLess(a, b) || IdLess(b, a)
    ensures b == c || IdLess(b, c) || IdLess(c, b)
    ensures !(IdLess(a, b) && IdLess(b, a)) && !(IdLess(b, c) && IdLess(c, b)) && !(IdLess(a, c) && IdLess(c, a))
    ensures IdLess(a, b) && IdLess(b, c) ==> IdLess(a, c)
    ensures IdLess(c, b) && IdLess(b, a) ==> IdLess(c, a)
  {
    hide IdLess;
    IdLessIsTotal(a, b);
    IdLessIsTotal(b, c);
    IdLessIsTotal(a, c);
    if IdLess(a, b) && IdLess(b, c) {
      IdLessIsTransitive(a, b, c);
    }
    if IdLess(c, b) && IdLess(b, a) {
      IdLessIsTransitive(c, b, a);
    }
  }

  /** On tasks with distinct ids each order is strict and total. */
  lemma OrderIsTotal(status: Status, a: Task, b: Task)
    ensures a.id != b.id ==> (Before(status, a, b) <==> !Before(status, b, a))
    ensures !(Before(status, a, b) && Before(status, b, a))
    ensures !Before(status, a, a)
  {
    hide Compare, Before, Place, IdLess;
    CompareIsLexicographic(status, a, b);
    CompareIsLexicographic(status, b, a);
    CompareIsLexicographic(status, a, a);
    IdLessIsTotal(a.id, b.id);
    IdLessIsTotal(a.id, a.id);
  }

  /** The order as the laws below use it. */
  lemma OrderLaws(status: Status)
    ensures forall a, b {:trigger Before(status, a, b)} :: Before(status, a, b) ==> !Before(status, b, a)
    ensures forall a, b, c {:trigger Before(status, a, b), Before(status, b, c)} ::
              Before(status, a, b) && Before(status, b, c) ==> Before(status, a, c)
  {
    hide Before;
    forall a, b | Before(status, a, b)
      ensures !Before(status, b, a)
    {
      OrderIsTotal(status, a, b);
    }
    forall a, b, c | Before(status, a, b) && Before(status, b, c)
      ensures Before(status, a, c)
    {
      OrderIsTotal(status, a, b);
      OrderIsTotal(status, b, c);
      BeforeIsTransitive(status, a, b, c);
    }
  }

  // ------------------------------------------------------------ sorting

  ghost predicate Sorted(status: Status, s: seq<Task>) {
    forall i, j :: 0 <= i < j < |s| ==> Before(status, s[i], s[j])
  }

  /** Puts a task before the first it comes before: after its equals, as a stable sort does. */
  function InsertIn(status: Status, t: Task, s: seq<Task>): (r: seq<Task>)
    ensures |r| == |s| + 1
  {
    if s == [] || Before(status, t, s[0]) then [t] + s
    else [s[0]] + InsertIn(status, t, s[1..])
  }

  /** The stable sort of a list by its order. */
  function SortBy(status: Status, s: seq<Task>): seq<Task> {
    if s == [] then []
    else InsertIn(status, s[|s| - 1], SortBy(status, s[..|s| - 1]))
  }

  lemma {:induction false} InsertHolds(status: Status, t: Task, s: seq<Task>)
    ensures forall x :: x in InsertIn(status, t, s) <==> x == t || x in s
  {
    if s != [] && !Before(status, t, s[0]) {
      hide Before;
      InsertHolds(status, t, s[1..]);
      assert forall x :: x in s <==> x == s[0] || x in s[1..];
    }
  }

  /** Before everything in `b`, a task goes among `a`. */
  lemma {:induction false} InsertAmongFirst(status: Status, t: Task, a: seq<Task>, b: seq<Task>)
    requires forall i :: 0 <= i < |b| ==> Before(status, t, b[i])
    ensures InsertIn(status, t, a + b) == InsertIn(status, t, a) + b
  {
    hide Before;
    if a == [] {
      assert a + b == b;
      assert InsertIn(status, t, a) == [t];
    } else {
      assert (a + b)[1..] == a[1..] + b;
      InsertAmongFirst(status, t, a[1..], b);
    }
  }

  /** Before nothing in `a`, a task goes among `b`. */
  lemma {:induction false} InsertAmongLast(status: Status, t: Task, a: seq<Task>, b: seq<Task>)
    requires forall i :: 0 <= i < |a| ==> !Before(status, t, a[i])
    ensures InsertIn(status, t, a + b) == a + InsertIn(status, t, b)
  {
    hide Before;
    if a == [] {
      assert a + b == b;
    } else {
      assert (a + b)[1..] == a[1..] + b;
      InsertAmongLast(status, t, a[1..], b);
    }
  }

  /** A task inserted before the last leaves it last. */
  lemma {:induction false} InsertBeforeLast(status: Status, t: Task, s: seq<Task>)
    requires s != [] && Before(status, t, s[|s| - 1])
    ensures InsertIn(status, t, s)[|s|] == s[|s| - 1]
  {
    hide Before;
    if !Before(status, t, s[0]) {
      assert |s| > 1;
      InsertBeforeLast(status, t, s[1..]);
      assert InsertIn(status, t, s)[|s|] == InsertIn(status, t, s[1..])[|s| - 1];
    }
  }

  lemma ConsSorts(status: Status, head: Task, rest: seq<Task>)
    requires Sorted(status, rest)
    requires forall x :: x in rest ==> Before(status, head, x)
    ensures Sorted(status, [head] + rest)
  {
    hide Before;
  }

  lemma BeforeFirstBeforeAll(status: Status, t: Task, s: seq<Task>)
    requires Sorted(status, s) && s != [] && Before(status, t, s[0])
    ensures forall x :: x in s ==> Before(status, t, x)
  {
    hide Before;
    OrderLaws(status);
  }

  /** A task with an id of its own keeps a sorted list sorted. */
  lemma {:induction false} InsertSorts(status: Status, t: Task, s: seq<Task>)
    requires Sorted(status, s)
    requires forall i :: 0 <= i < |s| ==> s[i].id != t.id
    ensures Sorted(status, InsertIn(status, t, s))
  {
    hide Before;
    if s != [] {
      if Before(status, t, s[0]) {
        BeforeFirstBeforeAll(status, t, s);
        ConsSorts(status, t, s);
      } else {
        OrderIsTotal(status, t, s[0]);
        InsertSorts(status, t, s[1..]);
        InsertHolds(status, t, s[1..]);
        ConsSorts(status, s[0], InsertIn(status, t, s[1..]));
      }
    }
  }

  lemma InsertAfterAll(status: Status, t: Task, s: seq<Task>)
    requires forall i :: 0 <= i < |s| ==> !Before(status, t, s[i])
    ensures InsertIn(status, t, s) == s + [t]
  {
    hide Before;
    InsertAmongLast(status, t, s, []);
    assert s + [] == s;
    assert InsertIn(status, t, []) == [t];
  }

  /** Sorting a sorted list changes nothing, so sorting it with one more task inserts that task. */
  lemma {:induction false} SortOfSorted(status: Status, s: seq<Task>)
    requires Sorted(status, s)
    ensures SortBy(status, s) == s
  {
    hide Before, InsertIn;
    if s != [] {
      var front, last := s[..|s| - 1], s[|s| - 1];
      SortOfSorted(status, front);
      OrderLaws(status);
      InsertAfterAll(status, last, front);
    }
  }

  /** A strictly sorted list is determined by what it holds. */
  lemma {:induction false} SortedIsUnique(status: Status, a: seq<Task>, b: seq<Task>)
    requires Sorted(status, a) && Sorted(status, b)
    requires forall t :: t in a <==> t in b
    ensures a == b
  {
    hide Before;
    OrderLaws(status);
    assert a != [] ==> a[0] in a;
    assert b != [] ==> b[0] in b;
    if a != [] && b != [] {
      SameFirst(status, a, b);
      forall t
        ensures t in a[1..] <==> t in b[1..]
      {
        NotAgain(status, a);
        NotAgain(status, b);
        assert t in a <==> t == a[0] || t in a[1..];
        assert t in b <==> t == b[0] || t in b[1..];
      }
      SortedIsUnique(status, a[1..], b[1..]);
      assert a == [a[0]] + a[1..] && b == [b[0]] + b[1..];
    }
  }

  lemma NotAgain(status: Status, a: seq<Task>)
    requires Sorted(status, a) && a != []
    ensures a[0] !in a[1..]
  {
    hide Before;
    OrderLaws(status);
  }

  lemma SameFirst(status: Status, a: seq<Task>, b: seq<Task>)
    requires Sorted(status, a) && Sorted(status, b) && a != [] && b != []
    requires forall t :: t in a <==> t in b
    ensures a[0] == b[0]
  {
    hide Before;
    OrderLaws(status);
    assert a[0] in b && b[0] in a;
    var i :| 0 <= i < |b| && b[i] == a[0];
    var j :| 0 <= j < |a| && a[j] == b[0];
  }
}
