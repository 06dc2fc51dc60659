/**
 Where one member goes in the pages of the member list, which the server orders by
 id (`apps/portal/src/queries/userCache.ts`).
 */
module UserPages {
  import opened Options
  import opened Ranks

  datatype User = User(id: string, name: string, email: string)

  /** A page of the list; the cursor names the id of the member the page ended on. */
  datatype Page = Page(items: seq<User>, next: Option<string>)

  type Pages = seq<Page>

  function Flatten(data: Pages): seq<User> {
    if data == [] then [] else data[0].items + Flatten(data[1..])
  }

  predicate HasMore(data: Pages) {
    data != [] && data[|data| - 1].next.Some?
  }

  predicate HoldsUser(items: seq<User>, id: string) {
    exists u :: u in items && u.id == id
  }

  predicate SomeAfter(items: seq<User>, id: string) {
    exists u :: u in items && IdLess(id, u.id)
  }

  function Swapped(items: seq<User>, user: User): seq<User> {
    if items == [] then []
    else [if items[0].id == user.id then user else items[0]] + Swapped(items[1..], user)
  }

  /** Before the first larger id, or at the end. */
  function InsertBefore(items: seq<User>, user: User): seq<User> {
    if items == [] || IdLess(user.id, items[0].id) then [user] + items
    else [items[0]] + InsertBefore(items[1..], user)
  }

  function Without(items: seq<User>, id: string): seq<User> {
    if items == [] then []
    else (if items[0].id == id then [] else [items[0]]) + Without(items[1..], id)
  }

  /** The first page holding the member, with the member as it now is. */
  function SwapInPages(data: Pages, user: User): Pages {
    if data == [] then []
    else if HoldsUser(data[0].items, user.id) then [data[0].(items := Swapped(data[0].items, user))] + data[1..]
    else [data[0]] + SwapInPages(data[1..], user)
  }

  function InsertInPages(data: Pages, user: User): Pages {
    if data == [] then []
    else if SomeAfter(data[0].items, user.id) then [data[0].(items := InsertBefore(data[0].items, user))] + data[1..]
    else if |data| > 1 then [data[0]] + InsertInPages(data[1..], user)
    else if data[0].next.Some? then data
    else [data[0].(items := data[0].items + [user])]
  }

  predicate PagesHold(data: Pages, id: string) {
    exists page :: page in data && HoldsUser(page.items, id)
  }

  function PlaceInPages(data: Pages, user: User): Pages {
    if PagesHold(data, user.id) then SwapInPages(data, user) else InsertInPages(data, user)
  }

  function RemoveFromPages(data: Pages, id: string): (r: Pages)
    ensures |r| == |data|
  {
    seq(|data|, i requires 0 <= i < |data| => data[i].(items := Without(data[i].items, id)))
  }

  // ------------------------------------------------------------ rows

  ghost predicate Sorted(items: seq<User>) {
    forall i, j :: 0 <= i < j < |items| ==> IdLess(items[i].id, items[j].id)
  }

  lemma IdOrder()
    ensures forall a, b :: a == b || IdLess(a, b) || IdLess(b, a)
    ensures forall a, b :: !(IdLess(a, b) && IdLess(b, a))
    ensures forall a :: !IdLess(a, a)
    ensures forall a, b, c :: IdLess(a, b) && IdLess(b, c) ==> IdLess(a, c)
  {
    forall a, b
      ensures (a == b || IdLess(a, b) || IdLess(b, a)) && !(IdLess(a, b) && IdLess(b, a))
    {
      IdLessIsTotal(a, b);
    }
    forall a
      ensures !IdLess(a, a)
    {
      IdLessIsTotal(a, a);
    }
    forall a, b, c | IdLess(a, b) && IdLess(b, c)
      ensures IdLess(a, c)
    {
      IdLessIsTransitive(a, b, c);
    }
  }

  lemma {:induction false} SwappedHolds(items: seq<User>, user: User)
    ensures |Swapped(items, user)| == |items|
    ensures forall i :: 0 <= i < |items| ==>
              Swapped(items, user)[i] == if items[i].id == user.id then user else items[i]
  {
    if items != [] {
      SwappedHolds(items[1..], user);
    }
  }

  lemma {:induction false} SwappedNothing(items: seq<User>, user: User)
    requires !HoldsUser(items, user.id)
    ensures Swapped(items, user) == items
  {
    SwappedHolds(items, user);
    assert forall i :: 0 <= i < |items| ==> items[i] in items;
  }

  lemma {:induction false} SwappedConcat(a: seq<User>, b: seq<User>, user: User)
    ensures Swapped(a + b, user) == Swapped(a, user) + Swapped(b, user)
  {
    if a == [] {
      assert a + b == b;
    } else {
      assert (a + b)[1..] == a[1..] + b;
      SwappedConcat(a[1..], b, user);
    }
  }

  lemma {:induction false} InsertHolds(items: seq<User>, user: User)
    ensures forall u :: u in InsertBefore(items, user) <==> u == user || u in items
  {
    hide IdLess;
    if items != [] && !IdLess(user.id, items[0].id) {
      InsertHolds(items[1..], user);
      assert forall u :: u in items <==> u == items[0] || u in items[1..];
    }
  }

  lemma {:induction false} InsertSorts(items: seq<User>, user: User)
    requires Sorted(items) && !HoldsUser(items, user.id)
    ensures Sorted(InsertBefore(items, user))
  {
    hide IdLess;
    if items != [] {
      IdOrder();
      assert items[0] in items && forall u :: u in items[1..] ==> u in items;
      if !IdLess(user.id, items[0].id) {
        InsertSorts(items[1..], user);
        InsertHolds(items[1..], user);
        var rest := InsertBefore(items[1..], user);
        forall j | 0 <= j < |rest|
          ensures IdLess(items[0].id, rest[j].id)
        {
          assert rest[j] in rest;
        }
      }
    }
  }

  lemma SomeAfterSplits(a: seq<User>, id: string)
    ensures SomeAfter([], id) == false
    ensures a != [] ==> (SomeAfter(a, id) <==> IdLess(id, a[0].id) || SomeAfter(a[1..], id))
  {
    hide IdLess;
    if a != [] {
      assert forall u :: u in a <==> u == a[0] || u in a[1..];
    }
  }

  /** Some member of `a` being larger, the new one goes among `a`; none being larger, among `b`. */
  lemma {:induction false} InsertConcat(a: seq<User>, b: seq<User>, user: User)
    ensures InsertBefore(a + b, user)
         == if SomeAfter(a, user.id) then InsertBefore(a, user) + b else a + InsertBefore(b, user)
  {
    hide IdLess, SomeAfter;
    SomeAfterSplits(a, user.id);
    if a == [] {
      assert a + b == b;
    } else {
      assert (a + b)[1..] == a[1..] + b;
      if IdLess(user.id, a[0].id) {
        assert [user] + (a + b) == ([user] + a) + b;
      } else {
        InsertConcat(a[1..], b, user);
        assert a == [a[0]] + a[1..];
      }
    }
  }

  lemma {:induction false} WithoutHolds(items: seq<User>, id: string)
    ensures forall u :: u in Without(items, id) <==> u in items && u.id != id
  {
    if items != [] {
      WithoutHolds(items[1..], id);
      assert forall u :: u in items <==> u == items[0] || u in items[1..];
    }
  }

  lemma {:induction false} WithoutConcat(a: seq<User>, b: seq<User>, id: string)
    ensures Without(a + b, id) == Without(a, id) + Without(b, id)
  {
    if a == [] {
      assert a + b == b;
    } else {
      assert (a + b)[1..] == a[1..] + b;
      WithoutConcat(a[1..], b, id);
    }
  }

  lemma {:induction false} WithoutSorts(items: seq<User>, id: string)
    requires Sorted(items)
    ensures Sorted(Without(items, id))
  {
    hide IdLess;
    if items != [] {
      WithoutSorts(items[1..], id);
      WithoutHolds(items[1..], id);
      var rest := Without(items[1..], id);
      forall j | 0 <= j < |rest|
        ensures IdLess(items[0].id, rest[j].id)
      {
        assert rest[j] in items[1..];
      }
    }
  }

  // ------------------------------------------------------------ pages as one list

  lemma {:induction false} FlattenHolds(data: Pages, id: string)
    ensures PagesHold(data, id) <==> HoldsUser(Flatten(data), id)
  {
    if data != [] {
      FlattenHolds(data[1..], id);
      assert forall page :: page in data <==> page == data[0] || page in data[1..];
      assert forall u :: u in Flatten(data) <==> u in data[0].items || u in Flatten(data[1..]);
    }
  }

  lemma {:induction false} FlattenOfSwap(data: Pages, user: User)
    requires Sorted(Flatten(data))
    ensures Flatten(SwapInPages(data, user)) == Swapped(Flatten(data), user)
    ensures |SwapInPages(data, user)| == |data| && HasMore(SwapInPages(data, user)) == HasMore(data)
    ensures HasMore(data) ==> SwapInPages(data, user)[|data| - 1].next == data[|data| - 1].next
  {
    hide IdLess;
    if data != [] {
      var rest := Flatten(data[1..]);
      SwappedConcat(data[0].items, rest, user);
      SortedTail(data[0].items, rest);
      if HoldsUser(data[0].items, user.id) {
        HeldOnce(data[0].items, rest, user.id);
        SwappedNothing(rest, user);
        assert SwapInPages(data, user)[1..] == data[1..];
      } else {
        SwappedNothing(data[0].items, user);
        FlattenOfSwap(data[1..], user);
        assert SwapInPages(data, user)[1..] == SwapInPages(data[1..], user);
      }
    }
  }

  lemma SortedTail(a: seq<User>, b: seq<User>)
    requires Sorted(a + b)
    ensures Sorted(b)
  {
    forall i, j | 0 <= i < j < |b|
      ensures IdLess(b[i].id, b[j].id)
    {
      assert b[i] == (a + b)[|a| + i] && b[j] == (a + b)[|a| + j];
    }
  }

  lemma HeldOnce(a: seq<User>, b: seq<User>, id: string)
    requires Sorted(a + b) && HoldsUser(a, id)
    ensures !HoldsUser(b, id)
  {
    hide IdLess;
    IdOrder();
    var u :| u in a && u.id == id;
    var i :| 0 <= i < |a| && a[i] == u;
    forall v | v in b
      ensures v.id != id
    {
      var j :| 0 <= j < |b| && b[j] == v;
      assert (a + b)[i] == u && (a + b)[|a| + j] == v;
    }
  }

  lemma SomeAfterConcat(a: seq<User>, b: seq<User>, id: string)
    ensures SomeAfter(a + b, id) <==> SomeAfter(a, id) || SomeAfter(b, id)
  {
    hide IdLess;
    assert forall u :: u in a + b <==> u in a || u in b;
  }

  lemma {:induction false} FlattenOfInsert(data: Pages, user: User)
    requires data != []
    ensures Flatten(InsertInPages(data, user))
         == if SomeAfter(Flatten(data), user.id) || !HasMore(data)
            then InsertBefore(Flatten(data), user) else Flatten(data)
    ensures |InsertInPages(data, user)| == |data| && HasMore(InsertInPages(data, user)) == HasMore(data)
    ensures HasMore(data) ==> InsertInPages(data, user)[|data| - 1].next == data[|data| - 1].next
  {
    hide IdLess, InsertBefore, SomeAfter;
    var rest := Flatten(data[1..]);
    var r := InsertInPages(data, user);
    InsertConcat(data[0].items, rest, user);
    SomeAfterConcat(data[0].items, rest, user.id);
    if SomeAfter(data[0].items, user.id) {
      assert r[1..] == data[1..];
    } else if |data| > 1 {
      FlattenOfInsert(data[1..], user);
      assert r[1..] == InsertInPages(data[1..], user);
    } else {
      InsertIntoNothing(user);
      SomeAfterSplits([], user.id);
      assert r[1..] == [] == data[1..];
    }
  }

  lemma InsertIntoNothing(user: User)
    ensures InsertBefore([], user) == [user]
  {
    assert [user] + [] == [user];
  }

  lemma {:induction false} FlattenOfRemove(data: Pages, id: string)
    ensures Flatten(RemoveFromPages(data, id)) == Without(Flatten(data), id)
    ensures HasMore(RemoveFromPages(data, id)) == HasMore(data)
    ensures HasMore(data) ==> RemoveFromPages(data, id)[|data| - 1].next == data[|data| - 1].next
  {
    if data != [] {
      var r := RemoveFromPages(data, id);
      assert r[1..] == RemoveFromPages(data[1..], id);
      FlattenOfRemove(data[1..], id);
      WithoutConcat(data[0].items, Flatten(data[1..]), id);
    }
  }

  /** Placing keeps the pages, and where the last one's cursor points. */
  lemma FlattenOfPlaced(data: Pages, user: User)
    requires data != [] && Sorted(Flatten(data))
    ensures var items, r := Flatten(data), PlaceInPages(data, user);
            && |r| == |data| && HasMore(r) == HasMore(data)
            && (HasMore(data) ==> r[|data| - 1].next == data[|data| - 1].next)
            && Flatten(r) == if HoldsUser(items, user.id) then Swapped(items, user)
                             else if SomeAfter(items, user.id) || !HasMore(data) then InsertBefore(items, user)
                             else items
  {
    hide Flatten, IdLess, InsertBefore, Swapped, SwapInPages, InsertInPages, HoldsUser, SomeAfter, PagesHold, HasMore,
         Sorted;
    FlattenHolds(data, user.id);
    if PagesHold(data, user.id) {
      FlattenOfSwap(data, user);
    } else {
      FlattenOfInsert(data, user);
    }
  }

  // ------------------------------------------------------------ page by page

  /** No two pages hold the member, as pages read one from the cursor of the other never do. */
  ghost predicate HeldInOnePage(data: Pages, id: string) {
    forall i, j :: 0 <= i < j < |data| ==> !(HoldsUser(data[i].items, id) && HoldsUser(data[j].items, id))
  }

  /** Two pages hold the same of every member but one. */
  ghost predicate SameButOne(a: seq<User>, b: seq<User>, id: string) {
    forall u: User :: u.id != id ==> (u in a <==> u in b)
  }

  lemma SwappedSaysOne(items: seq<User>, user: User)
    ensures SameButOne(Swapped(items, user), items, user.id)
    ensures HoldsUser(items, user.id) ==> user in Swapped(items, user)
    ensures forall u :: u in Swapped(items, user) && u.id == user.id ==> u == user
    ensures HoldsUser(Swapped(items, user), user.id) <==> HoldsUser(items, user.id)
  {
    hide Swapped;
    SwappedHolds(items, user);
    var r := Swapped(items, user);
    forall u: User | u.id != user.id
      ensures u in r <==> u in items
    {
      if u in items {
        var i :| 0 <= i < |items| && items[i] == u;
        assert r[i] == u;
      }
    }
    if HoldsUser(items, user.id) {
      var u :| u in items && u.id == user.id;
      var i :| 0 <= i < |items| && items[i] == u;
      assert r[i] == user;
    }
    if HoldsUser(r, user.id) {
      var u :| u in r && u.id == user.id;
      var i :| 0 <= i < |r| && r[i] == u;
      assert items[i] in items;
    }
  }

  /** A page with the member swapped in: every other as before, and the member held where held before. */
  ghost predicate SwappedPage(before: Page, after: Page, id: string) {
    && after.next == before.next && SameButOne(after.items, before.items, id)
    && (HoldsUser(after.items, id) <==> HoldsUser(before.items, id))
  }

  lemma {:induction false} SwapPageByPage(data: Pages, user: User)
    ensures var r := SwapInPages(data, user);
            |r| == |data| && forall i :: 0 <= i < |data| ==> SwappedPage(data[i], r[i], user.id)
  {
    hide Swapped, HoldsUser;
    if data != [] {
      SwappedSaysOne(data[0].items, user);
      if !HoldsUser(data[0].items, user.id) {
        SwapPageByPage(data[1..], user);
        assert forall i :: 0 < i < |data| ==> data[i] == data[1..][i - 1];
      }
    }
  }

  lemma {:induction false} SwapSaysOne(data: Pages, user: User)
    requires HeldInOnePage(data, user.id)
    ensures |SwapInPages(data, user)| == |data|
    ensures forall i, u :: 0 <= i < |data| && u in SwapInPages(data, user)[i].items && u.id == user.id ==> u == user
  {
    hide Swapped, IdLess;
    SwapPageByPage(data, user);
    if data != [] {
      SwappedSaysOne(data[0].items, user);
      assert forall i :: 0 < i < |data| ==> data[i] == data[1..][i - 1];
      if !HoldsUser(data[0].items, user.id) {
        SwapSaysOne(data[1..], user);
      }
    }
  }

  lemma InsertSaysOne(items: seq<User>, user: User)
    ensures SameButOne(InsertBefore(items, user), items, user.id)
  {
    hide InsertBefore;
    InsertHolds(items, user);
  }

  /** A page with the member perhaps put in: every other as before. */
  ghost predicate OnlyAdded(before: Page, after: Page, id: string) {
    after.next == before.next && SameButOne(after.items, before.items, id)
  }

  lemma {:induction false} InsertPageByPage(data: Pages, user: User)
    ensures var r := InsertInPages(data, user);
            |r| == |data| && forall i :: 0 <= i < |data| ==> OnlyAdded(data[i], r[i], user.id)
  {
    hide InsertBefore, SomeAfter;
    if data != [] {
      InsertSaysOne(data[0].items, user);
      AppendSaysOne(data[0].items, user);
      assert forall i :: 0 < i < |data| ==> data[i] == data[1..][i - 1];
      if !SomeAfter(data[0].items, user.id) && |data| > 1 {
        InsertPageByPage(data[1..], user);
      }
    }
  }

  lemma AppendSaysOne(items: seq<User>, user: User)
    ensures SameButOne(items + [user], items, user.id)
  {
    assert forall u :: u in items + [user] <==> u in items || u == user;
  }

  /** Held by no page, a member is put in one. */
  lemma {:induction false} InsertedOnce(data: Pages, user: User)
    requires forall i :: 0 <= i < |data| ==> !HoldsUser(data[i].items, user.id)
    ensures |InsertInPages(data, user)| == |data| && HeldInOnePage(InsertInPages(data, user), user.id)
  {
    hide InsertBefore, SomeAfter, HoldsUser;
    if data != [] {
      var r := InsertInPages(data, user);
      assert forall i :: 0 < i < |data| ==> data[i] == data[1..][i - 1];
      if SomeAfter(data[0].items, user.id) {
        assert forall i :: 0 < i < |data| ==> r[i] == data[i];
      } else if |data| > 1 {
        InsertedOnce(data[1..], user);
        HeldOnceMore(data[0], InsertInPages(data[1..], user), user.id);
      }
    }
  }

  lemma HeldOnceMore(page: Page, rest: Pages, id: string)
    requires !HoldsUser(page.items, id) && HeldInOnePage(rest, id)
    ensures HeldInOnePage([page] + rest, id)
  {
    hide HoldsUser;
  }

  /** Placing a member leaves every other where they are, page by page. */
  lemma PlacePageByPage(data: Pages, user: User)
    ensures var r := PlaceInPages(data, user);
            && |r| == |data| && (forall i :: 0 <= i < |data| ==> r[i].next == data[i].next)
            && (forall i :: 0 <= i < |data| ==> SameButOne(r[i].items, data[i].items, user.id))
            && (HeldInOnePage(data, user.id) ==> HeldInOnePage(r, user.id))
  {
    hide SwapInPages, InsertInPages, HoldsUser, SameButOne;
    SwapPageByPage(data, user);
    assert forall i :: 0 <= i < |data| ==> SwappedPage(data[i], SwapInPages(data, user)[i], user.id);
    InsertPageByPage(data, user);
    assert forall i :: 0 <= i < |data| ==> OnlyAdded(data[i], InsertInPages(data, user)[i], user.id);
    if !PagesHold(data, user.id) {
      assert forall i :: 0 <= i < |data| ==> data[i] in data;
      InsertedOnce(data, user);
    }
  }

  lemma {:induction false} FlattenIsPages(data: Pages, u: User)
    ensures u in Flatten(data) <==> exists i :: 0 <= i < |data| && u in data[i].items
  {
    if data != [] {
      FlattenIsPages(data[1..], u);
      assert forall i :: 0 < i < |data| ==> data[i] == data[1..][i - 1];
    }
  }

  /** So as one list too. */
  lemma PlacingTouchesOne(data: Pages, user: User)
    ensures SameButOne(Flatten(PlaceInPages(data, user)), Flatten(data), user.id)
    ensures HasMore(PlaceInPages(data, user)) == HasMore(data)
    ensures data != [] <==> PlaceInPages(data, user) != []
  {
    hide Flatten, PlaceInPages, HeldInOnePage;
    PlacePageByPage(data, user);
    forall u: User | u.id != user.id
      ensures u in Flatten(PlaceInPages(data, user)) <==> u in Flatten(data)
    {
      FlattenIsPages(data, u);
      FlattenIsPages(PlaceInPages(data, user), u);
    }
  }

  /** Held in one page at most, a member is placed as answered wherever they are held, or were to be. */
  lemma PlacingSaysOne(data: Pages, user: User)
    requires HeldInOnePage(data, user.id)
    ensures var rows := Flatten(PlaceInPages(data, user));
            && (forall u :: u in rows && u.id == user.id ==> u == user)
            && (data != [] ==> user in rows || (HasMore(data) && !SomeAfter(rows, user.id)))
  {
    hide Flatten, SwapInPages, InsertInPages, InsertBefore, SomeAfter, IdLess, HasMore, PagesHold;
    if PagesHold(data, user.id) {
      HeldIsSwapped(data, user);
    } else if data == [] {
      NothingPlacedIn(user);
    } else {
      FlattenHolds(data, user.id);
      FlattenOfInsert(data, user);
      InsertHolds(Flatten(data), user);
    }
  }

  lemma NothingPlacedIn(user: User)
    ensures Flatten(InsertInPages([], user)) == []
  {
  }

  lemma HeldIsSwapped(data: Pages, user: User)
    requires PagesHold(data, user.id) && HeldInOnePage(data, user.id)
    ensures var rows := Flatten(SwapInPages(data, user));
            user in rows && forall u :: u in rows && u.id == user.id ==> u == user
  {
    hide Flatten, SwapInPages, HeldInOnePage;
    SwapPageByPage(data, user);
    SwapSaysOne(data, user);
    var r := SwapInPages(data, user);
    forall u | u in Flatten(r) && u.id == user.id
      ensures u == user
    {
      FlattenIsPages(r, u);
    }
    var page :| page in data && HoldsUser(page.items, user.id);
    var i :| 0 <= i < |data| && data[i] == page;
    assert SwappedPage(data[i], r[i], user.id);
    var u :| u in r[i].items && u.id == user.id;
    FlattenIsPages(r, user);
  }

  /** Where a member comes to be held they were held before, or some larger one was, or every page is in hand. */
  lemma HeldForAReason(data: Pages, user: User, u: User)
    requires u in Flatten(PlaceInPages(data, user)) && u.id == user.id
    ensures HoldsUser(Flatten(data), user.id) || SomeAfter(Flatten(data), user.id) || !HasMore(data)
  {
    hide Flatten, SwapInPages, InsertInPages, InsertBefore, SomeAfter, IdLess, PagesHold;
    FlattenHolds(data, user.id);
    if data != [] && !PagesHold(data, user.id) {
      FlattenOfInsert(data, user);
      assert u in Flatten(data) ==> HoldsUser(Flatten(data), user.id);
    }
  }

  // ------------------------------------------------------------ against the server's roster

  /** The org's members by id, as the server holds them. */
  type Roster = map<string, User>

  ghost predicate Keyed(roster: Roster) {
    forall id :: id in roster ==> roster[id].id == id
  }

  /** The pages reach every member up to this id: all of them once every page is in hand. */
  predicate WithinReach(data: Pages, id: string) {
    HasMore(data) ==> !IdLess(data[|data| - 1].next.value, id)
  }

  /** The pages show, in order, exactly the server's members up to where the last cursor points. */
  ghost predicate ShowsTheRoster(data: Pages, roster: Roster) {
    && Sorted(Flatten(data))
    && forall u: User :: u in Flatten(data) <==> u.id in roster && roster[u.id] == u && WithinReach(data, u.id)
  }

  /** Between the last member in hand and the cursor, where a member that was the last has left. */
  ghost predicate BehindTheLast(data: Pages, id: string) {
    && HasMore(data) && WithinReach(data, id)
    && !HoldsUser(Flatten(data), id) && !SomeAfter(Flatten(data), id)
  }

  lemma SwappedShows(items: seq<User>, user: User)
    requires Sorted(items) && HoldsUser(items, user.id)
    ensures Sorted(Swapped(items, user))
    ensures forall u :: u in Swapped(items, user) <==> u == user || (u in items && u.id != user.id)
  {
    hide IdLess, Swapped;
    SwappedHolds(items, user);
    var r := Swapped(items, user);
    forall u
      ensures u in r <==> u == user || (u in items && u.id != user.id)
    {
      if u in items && u.id != user.id {
        var i :| 0 <= i < |items| && items[i] == u;
        assert r[i] == u;
      }
      if u == user {
        var v :| v in items && v.id == user.id;
        var i :| 0 <= i < |items| && items[i] == v;
        assert r[i] == user;
      }
    }
  }

  lemma PlacedRows(data: Pages, user: User)
    requires data != [] && Sorted(Flatten(data))
    ensures var items, rows := Flatten(data), Flatten(PlaceInPages(data, user));
            && Sorted(rows)
            && (forall u: User :: u.id != user.id ==> (u in rows <==> u in items))
            && (forall u: User :: u in rows && u.id == user.id ==> u == user)
            && (user in rows <==> HoldsUser(items, user.id) || SomeAfter(items, user.id) || !HasMore(data))
  {
    hide Flatten, IdLess, InsertBefore, Swapped, PlaceInPages, SomeAfter, HasMore, Sorted;
    var items := Flatten(data);
    FlattenOfPlaced(data, user);
    if HoldsUser(items, user.id) {
      SwappedShows(items, user);
    } else {
      InsertSorts(items, user);
      InsertHolds(items, user);
    }
  }

  lemma PlacedReach(data: Pages, user: User, id: string)
    requires data != [] && Sorted(Flatten(data))
    ensures WithinReach(PlaceInPages(data, user), id) == WithinReach(data, id)
  {
    hide Flatten, IdLess, InsertBefore, Swapped, PlaceInPages, SomeAfter, Sorted, HoldsUser;
    FlattenOfPlaced(data, user);
  }

  /** Within reach, the pages come to hold the member unless it falls behind the last one they hold. */
  lemma HeldWhenWithinReach(data: Pages, user: User)
    requires data != [] && Sorted(Flatten(data))
    requires forall u :: u in Flatten(data) ==> WithinReach(data, u.id)
    ensures user in Flatten(PlaceInPages(data, user)) <==> WithinReach(data, user.id) && !BehindTheLast(data, user.id)
  {
    hide Flatten, IdLess, PlaceInPages, Sorted;
    PlacedRows(data, user);
    IdOrder();
    if HoldsUser(Flatten(data), user.id) {
      var u :| u in Flatten(data) && u.id == user.id;
      assert WithinReach(data, u.id);
    }
    if SomeAfter(Flatten(data), user.id) {
      var u :| u in Flatten(data) && IdLess(user.id, u.id);
      assert WithinReach(data, u.id);
    }
  }

  /**
   Placing a member does to the pages what the change did to the server's roster,
   exactly unless the member falls behind the last one held and before the cursor.
   */
  lemma PlacingFollowsTheRosterExactlyWhen(data: Pages, roster: Roster, user: User)
    requires data != [] && Keyed(roster) && ShowsTheRoster(data, roster)
    ensures ShowsTheRoster(PlaceInPages(data, user), roster[user.id := user]) <==> !BehindTheLast(data, user.id)
  {
    hide Flatten, IdLess, PlaceInPages, WithinReach, BehindTheLast, Sorted, HoldsUser, SomeAfter, HasMore;
    PlacedRows(data, user);
    HeldWhenWithinReach(data, user);
    var placed := PlaceInPages(data, user);
    forall u: User
      ensures WithinReach(placed, u.id) == WithinReach(data, u.id)
    {
      PlacedReach(data, user, u.id);
    }
    var rows, after := Flatten(placed), roster[user.id := user];
    forall u: User | u.id != user.id
      ensures u in rows <==> u.id in after && after[u.id] == u && WithinReach(placed, u.id)
    {
    }
    assert user.id in after && after[user.id] == user;
    if BehindTheLast(data, user.id) {
      BehindIsWithinReach(data, user.id);
      assert user !in rows;
    } else {
      assert user in rows <==> WithinReach(placed, user.id);
    }
  }

  lemma BehindIsWithinReach(data: Pages, id: string)
    requires BehindTheLast(data, id)
    ensures WithinReach(data, id)
  {
  }

  /** Taking a member out always follows the roster. */
  lemma RemovingFollowsTheRoster(data: Pages, roster: Roster, id: string)
    requires Keyed(roster) && ShowsTheRoster(data, roster)
    ensures ShowsTheRoster(RemoveFromPages(data, id), roster - {id})
  {
    hide Flatten, IdLess, Without, Sorted;
    FlattenOfRemove(data, id);
    WithoutHolds(Flatten(data), id);
    WithoutSorts(Flatten(data), id);
  }

  /** The next page of the walk: the server's members past the cursor, up to the page's own. */
  ghost predicate IsNextPage(data: Pages, page: Page, roster: Roster) {
    && HasMore(data) && Sorted(page.items)
    && forall u: User :: u in page.items <==>
         && u.id in roster && roster[u.id] == u
         && IdLess(data[|data| - 1].next.value, u.id)
         && (page.next.Some? ==> !IdLess(page.next.value, u.id))
  }

  lemma {:induction false} FlattenAppend(data: Pages, page: Page)
    ensures Flatten(data + [page]) == Flatten(data) + page.items
  {
    if data == [] {
      assert Flatten([page]) == page.items + Flatten([]);
      assert data + [page] == [page];
    } else {
      assert (data + [page])[1..] == data[1..] + [page];
      FlattenAppend(data[1..], page);
    }
  }

  /** So the walk goes on from pages with members placed in them, with no member lost or repeated. */
  lemma NextPageFollowsTheRoster(data: Pages, page: Page, roster: Roster)
    requires ShowsTheRoster(data, roster) && IsNextPage(data, page, roster)
    requires page.next.Some? ==> IdLess(data[|data| - 1].next.value, page.next.value)
    ensures ShowsTheRoster(data + [page], roster)
  {
    hide Flatten, IdLess;
    IdOrder();
    FlattenAppend(data, page);
    var edge := data[|data| - 1].next.value;
    var a: seq<User>, b: seq<User> := Flatten(data), page.items;
    forall i, j | 0 <= i < j < |a + b|
      ensures IdLess((a + b)[i].id, (a + b)[j].id)
    {
      if i < |a| <= j {
        assert a[i] in a && b[j - |a|] in b;
        assert !IdLess(edge, a[i].id) && IdLess(edge, b[j - |a|].id);
      }
    }
    forall u: User
      ensures u in a + b <==> u.id in roster && roster[u.id] == u && WithinReach(data + [page], u.id)
    {
      assert u in a + b <==> u in a || u in b;
    }
  }

  /** Taking a member out and placing it again restores the list, unless it was the last before a cursor. */
  lemma RemoveThenPlaceRestoresExactlyWhen(data: Pages, user: User)
    requires data != [] && Sorted(Flatten(data)) && user in Flatten(data)
    ensures Flatten(PlaceInPages(RemoveFromPages(data, user.id), user)) == Flatten(data)
       <==> !(HasMore(data) && Flatten(data)[|Flatten(data)| - 1] == user)
  {
    hide Flatten, IdLess, PlaceInPages, RemoveFromPages, Without, HasMore;
    IdOrder();
    var items := Flatten(data);
    var removed := RemoveFromPages(data, user.id);
    var left := Flatten(removed);
    FlattenOfRemove(data, user.id);
    WithoutHolds(items, user.id);
    WithoutSorts(items, user.id);
    PlacedRows(removed, user);
    LastHasNoneAfter(items, user);
    OnlyOnce(items, user);
    assert SomeAfter(left, user.id) <==> SomeAfter(items, user.id);
    var placed := Flatten(PlaceInPages(removed, user));
    if user in placed {
      SortedIsUnique(placed, items);
    }
  }

  lemma LastHasNoneAfter(items: seq<User>, user: User)
    requires Sorted(items) && user in items
    ensures !SomeAfter(items, user.id) <==> items[|items| - 1] == user
  {
    hide IdLess;
    IdOrder();
    var i :| 0 <= i < |items| && items[i] == user;
    assert items[|items| - 1] in items;
    forall u | u in items && IdLess(user.id, u.id)
      ensures i < |items| - 1
    {
    }
  }

  lemma OnlyOnce(items: seq<User>, user: User)
    requires Sorted(items) && user in items
    ensures forall u :: u in items && u.id == user.id ==> u == user
  {
    hide IdLess;
    IdOrder();
  }

  /** A sorted list is determined by what it holds. */
  lemma {:induction false} SortedIsUnique(a: seq<User>, b: seq<User>)
    requires Sorted(a) && Sorted(b)
    requires forall u :: u in a <==> u in b
    ensures a == b
  {
    hide IdLess;
    IdOrder();
    assert a != [] ==> a[0] in b;
    assert b != [] ==> b[0] in a;
    if a != [] {
      SameFirst(a, b);
      forall u
        ensures u in a[1..] <==> u in b[1..]
      {
        assert u in a <==> u == a[0] || u in a[1..];
        assert u in b <==> u == b[0] || u in b[1..];
      }
      SortedIsUnique(a[1..], b[1..]);
      assert a == [a[0]] + a[1..] && b == [b[0]] + b[1..];
    }
  }

  lemma SameFirst(a: seq<User>, b: seq<User>)
    requires Sorted(a) && Sorted(b) && a != [] && b != []
    requires forall u :: u in a <==> u in b
    ensures a[0] == b[0] && a[0] !in a[1..] && b[0] !in b[1..]
  {
    hide IdLess;
    IdOrder();
    assert a[0] in b && b[0] in a;
    var i :| 0 <= i < |b| && b[i] == a[0];
    var j :| 0 <= j < |a| && a[j] == b[0];
  }
}
