/**
 Where a push goes, and why a page read back from the stream may route only
 the last push of each key (`apps/portal/src/realtime/router.ts`).
 */
module Router {
  import opened Options
  import opened Envelopes
  import opened Strings

  type QueryKey = seq<string>

  /** One thing a route does: a hint to an entity's reader, or an invalidation. */
  datatype Touch = Hints(entity: string, id: string) | Invalidates(key: QueryKey)

  /** The entities read through another query, or through none. */
  function TargetsOf(entity: string): seq<QueryKey> {
    if entity == "auth_session" then []
    else if entity == "membership" then [["me"], ["my_membership"], ["membership"]]
    else if entity == "user" then [["user"], ["me"]]
    else if entity == "account" then [["billing"]]
    else [[entity]]
  }

  /** What routing one change touches; `readers` are the entities read record by record. */
  ghost function Touches(change: Change, readers: set<string>): set<Touch> {
    var entity := EntityOf(change.kind);
    if entity in readers then {Hints(entity, change.target)}
    else set key | key in TargetsOf(entity) :: Invalidates(key)
  }

  ghost function TouchesOf(changes: seq<Change>, readers: set<string>): set<Touch> {
    set c, t | c in changes && t in Touches(c, readers) :: t
  }

  /** Routes one change: a hint, or one invalidation per target. */
  method RouteChange(change: Change, readers: set<string>) returns (touched: seq<Touch>)
    ensures forall t :: t in touched <==> t in Touches(change, readers)
  {
    var entity := EntityOf(change.kind);
    if entity in readers {
      return [Hints(entity, change.target)];
    }
    var targets := TargetsOf(entity);
    touched := [];
    for i := 0 to |targets|
      invariant forall t :: t in touched <==> exists k :: 0 <= k < i && t == Invalidates(targets[k])
    {
      touched := touched + [Invalidates(targets[i])];
    }
  }

  /** What a page keeps one push of: the record where a reader reads it, the entity otherwise. */
  function ReplayKey(change: Change, readers: set<string>): string {
    var entity := EntityOf(change.kind);
    if entity in readers then entity + "/" + change.target else entity
  }

  predicate SlashFree(entity: string) {
    '/' !in entity
  }

  const PUSHED_ENTITIES: set<string> := {
    "api_key", "auth_session", "file", "invitation", "membership", "orchestration",
    "user", "account", "installation", "task"
  }

  /** The first slash of a key ends its entity's name. */
  lemma SlashEndsEntity(entity: string, target: string)
    requires SlashFree(entity)
    ensures IndexOf(entity + "/" + target, '/', 0) == |entity|
    ensures IndexOf(entity, '/', 0) == |entity|
  {
    var key := entity + "/" + target;
    assert forall k :: 0 <= k < |entity| ==> key[k] == entity[k];
    assert key[|entity|] == '/';
  }

  /** Two changes under one key touch the same, as long as no entity name holds a slash. */
  lemma KeyDecidesTouches(a: Change, b: Change, readers: set<string>)
    requires SlashFree(EntityOf(a.kind)) && SlashFree(EntityOf(b.kind))
    requires ReplayKey(a, readers) == ReplayKey(b, readers)
    ensures Touches(a, readers) == Touches(b, readers)
  {
    var ea, eb := EntityOf(a.kind), EntityOf(b.kind);
    SlashEndsEntity(ea, a.target);
    SlashEndsEntity(eb, b.target);
    var ka, kb := ReplayKey(a, readers), ReplayKey(b, readers);
    assert |ea| == |eb|;
    assert ka[..|ea|] == ea && kb[..|eb|] == eb;
    if ea in readers {
      assert a.target == ka[|ea| + 1..] && b.target == kb[|eb| + 1..];
    }
  }

  lemma TouchesTellEntities(a: Change, b: Change, readers: set<string>)
    requires EntityOf(a.kind) in readers && EntityOf(b.kind) !in readers
    ensures Touches(a, readers) != Touches(b, readers)
  {
    hide EntityOf, TargetsOf;
    assert Hints(EntityOf(a.kind), a.target) in Touches(a, readers);
    assert Hints(EntityOf(a.kind), a.target) !in Touches(b, readers);
  }

  /** Whatever the names, two changes under one key touch the same exactly when they are of one entity. */
  lemma UnderOneKeyTouchesAgreeExactlyWhen(a: Change, b: Change, readers: set<string>)
    requires ReplayKey(a, readers) == ReplayKey(b, readers)
    ensures Touches(a, readers) == Touches(b, readers) <==> EntityOf(a.kind) == EntityOf(b.kind)
  {
    hide EntityOf, TargetsOf;
    var ea, eb := EntityOf(a.kind), EntityOf(b.kind);
    if ea in readers && eb in readers {
      var ka, kb := ReplayKey(a, readers), ReplayKey(b, readers);
      if ea == eb {
        assert a.target == ka[|ea| + 1..] && b.target == kb[|eb| + 1..];
      } else {
        assert Hints(ea, a.target) in Touches(a, readers) && Hints(ea, a.target) !in Touches(b, readers);
      }
    } else if ea in readers {
      TouchesTellEntities(a, b, readers);
    } else if eb in readers {
      TouchesTellEntities(b, a, readers);
    }
  }

  /** The queries the portal caches, by what they are read for. */
  datatype Query =
    | ApiKeys | Files | FilePreview | Flags | Identity | Invitations | Me | Memberships | MyMemberships
    | Users | Billing | Imports | TaskLists | Slack

  /** The key every query of a kind is cached under begins with this. */
  function KeyOf(query: Query): QueryKey {
    match query
    case ApiKeys => ["api_key"]
    case Files => ["file"]
    case FilePreview => ["file_preview"]
    case Flags => ["flags"]
    case Identity => ["identity"]
    case Invitations => ["invitation"]
    case Me => ["me"]
    case Memberships => ["membership"]
    case MyMemberships => ["my_membership"]
    case Users => ["user"]
    case Billing => ["billing"]
    case Imports => ["orchestration"]
    case TaskLists => ["task"]
    case Slack => ["installation", "slack"]
  }

  /** The entities whose records a query's answer is made of, of those the server pushes. */
  function CarriedBy(query: Query): set<string> {
    match query
    case ApiKeys => {"api_key"}
    case Files => {"file"}
    case Invitations => {"invitation"}
    case Me => {"membership", "user"}
    case Memberships => {"membership"}
    case MyMemberships => {"membership"}
    case Users => {"user"}
    case Billing => {"account"}
    case Imports => {"orchestration"}
    case TaskLists => {"task"}
    case Slack => {"installation"}
    case _ => {}
  }

  /** A query is read again when a key its own begins with is invalidated. */
  ghost predicate IsReadAgain(query: Query, touched: set<Touch>) {
    exists key :: Invalidates(key) in touched && key <= KeyOf(query)
  }

  /** A key of one name reaches what begins with it. */
  lemma {:induction false} ReachedBy(targets: seq<QueryKey>, key: QueryKey)
    requires key != [] && forall i :: 0 <= i < |targets| ==> |targets[i]| == 1
    ensures (exists target :: target in targets && target <= key) <==> [key[0]] in targets
  {
    assert forall i :: 0 <= i < |targets| && targets[i] <= key ==> targets[i] == [key[0]];
  }

  lemma TargetsReach(entity: string, query: Query)
    requires entity in PUSHED_ENTITIES
    ensures (exists key :: key in TargetsOf(entity) && key <= KeyOf(query)) <==> entity in CarriedBy(query)
  {
    hide KeyOf, CarriedBy;
    var key, targets := KeyOf(query), TargetsOf(entity);
    KeysAreNamed(query);
    ReachedBy(targets, key);
    if entity == "membership" {
      assert targets == [["me"], ["my_membership"], ["membership"]];
    } else if entity == "user" {
      assert targets == [["user"], ["me"]];
    } else if entity == "account" {
      assert targets == [["billing"]];
    } else if entity == "auth_session" {
      assert targets == [];
    } else {
      assert targets == [[entity]];
      NamedAfterIts(entity, query);
    }
  }

  lemma KeysAreNamed(query: Query)
    ensures KeyOf(query) != []
    ensures "auth_session" !in CarriedBy(query)
    ensures KeyOf(query)[0] in {"me", "my_membership", "membership"} <==> "membership" in CarriedBy(query)
    ensures KeyOf(query)[0] in {"me", "user"} <==> "user" in CarriedBy(query)
    ensures KeyOf(query)[0] == "billing" <==> "account" in CarriedBy(query)
  {
  }

  /** Any other entity is read by the queries whose key begins with its name, and by no other. */
  lemma NamedAfterIts(entity: string, query: Query)
    requires entity in {"api_key", "file", "invitation", "orchestration", "installation", "task"}
    ensures [entity] <= KeyOf(query) <==> entity in CarriedBy(query)
  {
    var key := KeyOf(query);
    assert [entity] <= key <==> entity == key[0];
    assert |"api_key"| == 7 && |"file"| == 4 && |"invitation"| == 10;
    assert |"orchestration"| == 13 && |"installation"| == 12 && |"task"| == 4 && "task"[0] == 't' && "file"[0] == 'f';
    assert |"billing"| == 7 && "billing"[0] == 'b' && "api_key"[0] == 'a';
    assert "user"[0] == 'u' && |"membership"| == 10 && "membership"[0] == 'm' && "invitation"[0] == 'i';
    assert |"file_preview"| == 12 && "file_preview"[0] == 'f' && "installation"[0] == 'i';
    assert |"flags"| == 5 && |"identity"| == 8 && |"my_membership"| == 13 && "my_membership"[0] == 'm';
    assert "orchestration"[0] == 'o' && |"me"| == 2;
  }

  /**
   A push of an entity read record by record is a hint about its one record; any other push
   has exactly the queries read again that carry its entity, through whatever query that is.
   */
  lemma APushReachesWhatCarriesIt(change: Change, readers: set<string>, query: Query)
    requires EntityOf(change.kind) in PUSHED_ENTITIES
    ensures var entity, touched := EntityOf(change.kind), Touches(change, readers);
            if entity in readers then touched == {Hints(entity, change.target)} && !IsReadAgain(query, touched)
            else IsReadAgain(query, touched) <==> entity in CarriedBy(query)
  {
    hide EntityOf, TargetsOf, KeyOf, CarriedBy;
    var entity, touched := EntityOf(change.kind), Touches(change, readers);
    TargetsReach(entity, query);
    if entity !in readers {
      assert forall key :: Invalidates(key) in touched <==> key in TargetsOf(entity);
    }
  }

  lemma PlainKind()
    ensures EntityOf("x.task.y") == "task"
  {
    var kind := "x.task.y";
    assert kind[1] == '.' && kind[6] == '.';
    assert IndexOf(kind, '.', 0) == 1 && IndexOf(kind, '.', 2) == 6;
  }

  lemma SlashedKind()
    ensures EntityOf("x.task/5.y") == "task/5"
  {
    var kind := "x.task/5.y";
    assert kind[1] == '.' && kind[8] == '.';
    assert IndexOf(kind, '.', 0) == 1 && IndexOf(kind, '.', 2) == 8;
  }

  /** With a slash in an entity's name one key can hide another's change. */
  lemma SlashCollides()
    ensures exists a, b, readers ::
              ReplayKey(a, readers) == ReplayKey(b, readers) && Touches(a, readers) != Touches(b, readers)
  {
    hide EntityOf, TargetsOf;
    var a := Change("x.task.y", "5", 1, None);
    var b := Change("x.task/5.y", "6", 2, None);
    PlainKind();
    SlashedKind();
    var readers := {"task"};
    assert "task" + "/" + "5" == "task/5";
    assert "task/5"[4] == '/';
    assert "task/5" !in readers;
    assert ReplayKey(a, readers) == ReplayKey(b, readers);
    assert Hints("task", "5") in Touches(a, readers);
    assert Hints("task", "5") !in Touches(b, readers);
  }

  /** One entry of the insertion-ordered map a page is gathered in. */
  datatype Entry = Entry(key: string, change: Change)

  /** `Map.set`: an entry keeps its place and takes the new value. */
  function SetEntry(entries: seq<Entry>, key: string, change: Change): (r: seq<Entry>)
    ensures |entries| <= |r| <= |entries| + 1
    ensures Entry(key, change) in r
    ensures forall e :: e in r ==> e in entries || e == Entry(key, change)
    ensures forall e :: e in entries && e.key != key ==> e in r
  {
    if entries == [] then [Entry(key, change)]
    else if entries[0].key == key then [Entry(key, change)] + entries[1..]
    else
      var rest := SetEntry(entries[1..], key, change);
      assert forall e :: e in entries <==> e == entries[0] || e in entries[1..];
      [entries[0]] + rest
  }

  /** The gathered entries of some changes, each set under its key in turn. */
  function Collect(changes: seq<Change>, readers: set<string>): seq<Entry> {
    if changes == [] then []
    else
      var c := changes[|changes| - 1];
      SetEntry(Collect(changes[..|changes| - 1], readers), ReplayKey(c, readers), c)
  }

  function Values(entries: seq<Entry>): (cs: seq<Change>)
    ensures |cs| == |entries|
    ensures forall i :: 0 <= i < |cs| ==> cs[i] == entries[i].change
  {
    seq(|entries|, i requires 0 <= i < |entries| => entries[i].change)
  }

  /** What a page of changes routes: the last change of each key. */
  function LastPerKey(changes: seq<Change>, readers: set<string>): seq<Change> {
    Values(Collect(changes, readers))
  }

  ghost predicate Distinct(entries: seq<Entry>) {
    forall i, j :: 0 <= i < j < |entries| ==> entries[i].key != entries[j].key
  }

  lemma {:induction false} SetEntryDistinct(entries: seq<Entry>, key: string, change: Change)
    requires Distinct(entries)
    ensures Distinct(SetEntry(entries, key, change))
    ensures forall e :: e in SetEntry(entries, key, change) && e.key == key ==> e.change == change
  {
    if entries != [] && entries[0].key != key {
      SetEntryDistinct(entries[1..], key, change);
      var rest := SetEntry(entries[1..], key, change);
      forall e | e in rest
        ensures e.key != entries[0].key
      {
        if e != Entry(key, change) {
          assert e in entries[1..];
        }
      }
    }
  }

  /** Every entry is one of the changes under its own key, and each key has one entry. */
  lemma {:induction false} CollectSound(changes: seq<Change>, readers: set<string>)
    ensures Distinct(Collect(changes, readers))
    ensures forall e :: e in Collect(changes, readers) ==>
              e.change in changes && e.key == ReplayKey(e.change, readers)
  {
    if changes != [] {
      var front := changes[..|changes| - 1];
      var c := changes[|changes| - 1];
      CollectSound(front, readers);
      SetEntryDistinct(Collect(front, readers), ReplayKey(c, readers), c);
    }
  }

  /** The entry of a key is its last change: no change under that key comes after it. */
  lemma {:induction false} CollectCovers(changes: seq<Change>, readers: set<string>, i: nat)
    returns (e: Entry, j: nat)
    requires i < |changes|
    ensures e in Collect(changes, readers)
    ensures i <= j < |changes| && changes[j] == e.change && e.key == ReplayKey(changes[i], readers)
  {
    var front := changes[..|changes| - 1];
    var last := changes[|changes| - 1];
    var key := ReplayKey(changes[i], readers);
    if key == ReplayKey(last, readers) {
      e, j := Entry(key, last), |changes| - 1;
    } else {
      e, j := CollectCovers(front, readers, i);
    }
  }

  /** Of each key a page routes one change, and only changes of the page. */
  lemma OneRoutePerKey(changes: seq<Change>, readers: set<string>)
    ensures var kept := LastPerKey(changes, readers);
            && (forall c :: c in kept ==> c in changes)
            && forall i, j :: 0 <= i < j < |kept| ==> ReplayKey(kept[i], readers) != ReplayKey(kept[j], readers)
  {
    hide ReplayKey, SetEntry;
    CollectSound(changes, readers);
    var entries, kept := Collect(changes, readers), LastPerKey(changes, readers);
    assert forall i :: 0 <= i < |kept| ==> entries[i] in entries;
  }

  /** A change routed from a page covers every change of its key up to its own place in the stream. */
  lemma LastPerKeyCovers(changes: seq<Change>, readers: set<string>, i: nat)
    requires i < |changes| && Ascending(changes)
    ensures exists c :: c in LastPerKey(changes, readers) && c in changes
                        && ReplayKey(c, readers) == ReplayKey(changes[i], readers)
                        && changes[i].seqNo <= c.seqNo
  {
    var e, j := CollectCovers(changes, readers, i);
    CollectSound(changes, readers);
    var entries, kept := Collect(changes, readers), LastPerKey(changes, readers);
    var k :| 0 <= k < |entries| && entries[k] == e;
    var c := e.change;
    assert kept[k] == c;
    assert changes[i].seqNo <= c.seqNo;
    assert c in kept && c in changes;
  }

  /** Routing the last change of each key reaches exactly what routing every change would. */
  lemma LastPerKeyTouchesTheSame(changes: seq<Change>, readers: set<string>)
    requires forall c :: c in changes ==> SlashFree(EntityOf(c.kind))
    ensures TouchesOf(LastPerKey(changes, readers), readers) == TouchesOf(changes, readers)
  {
    var entries := Collect(changes, readers);
    var kept := LastPerKey(changes, readers);
    CollectSound(changes, readers);
    forall c | c in kept
      ensures c in changes
    {
      var k :| 0 <= k < |kept| && kept[k] == c;
      assert entries[k] in entries;
    }
    forall c, t | c in changes && t in Touches(c, readers)
      ensures t in TouchesOf(kept, readers)
    {
      var i :| 0 <= i < |changes| && changes[i] == c;
      var e, j := CollectCovers(changes, readers, i);
      KeyDecidesTouches(c, e.change, readers);
      var k :| 0 <= k < |entries| && entries[k] == e;
      assert kept[k] == e.change;
    }
  }

  lemma PushedEntitiesHoldNoSlash()
    ensures forall entity :: entity in PUSHED_ENTITIES ==> SlashFree(entity)
  {
    assert SlashFree("api_key") && SlashFree("auth_session") && SlashFree("file") && SlashFree("invitation");
    assert SlashFree("membership") && SlashFree("orchestration") && SlashFree("user") && SlashFree("account");
    assert SlashFree("installation") && SlashFree("task");
  }

  /** So it does for every page of the entities the server pushes. */
  lemma PushedPagesTouchTheSame(changes: seq<Change>, readers: set<string>)
    requires forall c :: c in changes ==> EntityOf(c.kind) in PUSHED_ENTITIES
    ensures TouchesOf(LastPerKey(changes, readers), readers) == TouchesOf(changes, readers)
  {
    hide EntityOf, TouchesOf, LastPerKey, SlashFree;
    PushedEntitiesHoldNoSlash();
    LastPerKeyTouchesTheSame(changes, readers);
  }
}
