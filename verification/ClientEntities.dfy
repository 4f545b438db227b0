/** The client's object tables: what allocation and deallocation frames do to them. */
module ClientEntities {
  import opened NetTypes
  import opened SnapshotTransfer

  /** An object as far as the tables tell: its number, and who controls it. */
  datatype Ent = Ent(netId: uint32, controller: uint32)

  predicate IsLocal(e: Ent) {
    e.controller == CONTROLLER_LOCAL
  }

  /** A manager's list of all objects, and its list of local ones. */
  datatype Tables = Tables(objects: seq<Ent>, locals: seq<Ent>)

  function Ids(s: seq<Ent>): (ids: seq<uint32>)
    ensures |ids| == |s| && forall i :: 0 <= i < |ids| ==> ids[i] == s[i].netId
  {
    seq(|s|, i requires 0 <= i < |s| => s[i].netId)
  }

  function Built(t: Tables, id: uint32, controller: uint32): Tables {
    var e := Ent(id, controller);
    Tables(t.objects + [e], if IsLocal(e) then t.locals + [e] else t.locals)
  }

  /** Without the first object of that number. */
  function Erased(s: seq<Ent>, id: uint32): seq<Ent> {
    var k := FirstAt(Ids(s), id);
    if k == |s| then s else s[..k] + s[k + 1..]
  }

  function Freed(t: Tables, id: uint32): Tables {
    Tables(Erased(t.objects, id), Erased(t.locals, id))
  }

  // ---------------------------------------------------------------- one manager

  datatype Event = Alloc(id: uint32, controller: uint32) | Dealloc(id: uint32)

  function Happened(t: Tables, e: Event): Tables {
    match e
    case Alloc(id, controller) => if id in Ids(t.objects) then t else Built(t, id, controller)
    case Dealloc(id) => if id in Ids(t.objects) then Freed(t, id) else t
  }

  function HappenedAll(t: Tables, events: seq<Event>): Tables
    decreases |events|
  {
    if events == [] then t else HappenedAll(Happened(t, events[0]), events[1..])
  }

  function Locals(s: seq<Ent>): seq<Ent> {
    if s == [] then [] else (if IsLocal(s[0]) then [s[0]] else []) + Locals(s[1..])
  }

  predicate Unique(s: seq<Ent>) {
    forall i, j :: 0 <= i < j < |s| ==> s[i].netId != s[j].netId
  }

  /** No number twice, and the local list is the local part of the object list, in order. */
  predicate InOrder(t: Tables) {
    Unique(t.objects) && t.locals == Locals(t.objects)
  }

  lemma {:induction false} LocalsAppend(a: seq<Ent>, b: seq<Ent>)
    ensures Locals(a + b) == Locals(a) + Locals(b)
  {
    hide IsLocal;
    if a == [] {
      assert a + b == b;
    } else {
      LocalsAppend(a[1..], b);
      var first := if IsLocal(a[0]) then [a[0]] else [];
      assert (a + b)[0] == a[0] && (a + b)[1..] == a[1..] + b;
      assert first + (Locals(a[1..]) + Locals(b)) == first + Locals(a[1..]) + Locals(b);
    }
  }

  lemma LocalsOne(e: Ent)
    ensures Locals([e]) == if IsLocal(e) then [e] else []
  {
    assert [e][1..] == [];
    assert Locals([e][1..]) == [];
  }

  lemma {:induction false} LocalsMembers(s: seq<Ent>, e: Ent)
    ensures e in Locals(s) <==> e in s && IsLocal(e)
  {
    if s == [] {
    } else {
      LocalsMembers(s[1..], e);
      assert s == [s[0]] + s[1..];
    }
  }

  lemma IdsAppend(a: seq<Ent>, b: seq<Ent>)
    ensures Ids(a + b) == Ids(a) + Ids(b)
  {
  }

  /** A number that is listed once splits the list in two, and erasing it joins them. */
  lemma SplitAt(s: seq<Ent>, id: uint32) returns (a: seq<Ent>, e: Ent, b: seq<Ent>)
    requires Unique(s) && id in Ids(s)
    ensures s == a + [e] + b && e.netId == id && id !in Ids(a) && id !in Ids(b) && Erased(s, id) == a + b
  {
    var k := FirstAt(Ids(s), id);
    a, e, b := s[..k], s[k], s[k + 1..];
  }

  lemma ErasedAt(a: seq<Ent>, e: Ent, b: seq<Ent>)
    requires e.netId !in Ids(a)
    ensures Erased(a + [e] + b, e.netId) == a + b
  {
    var s := a + [e] + b;
    assert s[|a|] == e;
    assert forall i :: 0 <= i < |a| ==> s[i] == a[i] && Ids(a)[i] != e.netId;
    var k := FirstAt(Ids(s), e.netId);
    assert k <= |a| by {
      assert Ids(s)[|a|] == e.netId;
    }
    assert k == |a|;
  }

  lemma ErasedNone(s: seq<Ent>, id: uint32)
    requires id !in Ids(s)
    ensures Erased(s, id) == s
  {
  }

  /** Erasing a number from both lists keeps the one the local part of the other. */
  lemma LocalsOfErased(s: seq<Ent>, id: uint32)
    requires Unique(s)
    ensures Locals(Erased(s, id)) == Erased(Locals(s), id)
  {
    hide Ids, Erased, Unique, Locals;
    if id !in Ids(s) {
      NoLocalOf(s, id);
      ErasedNone(s, id);
      ErasedNone(Locals(s), id);
    } else {
      var a, e, b := SplitAt(s, id);
      LocalsAppend(a + [e], b);
      LocalsAppend(a, [e]);
      LocalsAppend(a, b);
      LocalsOne(e);
      NoLocalOf(a, id);
      NoLocalOf(b, id);
      if IsLocal(e) {
        ErasedAt(Locals(a), e, Locals(b));
      } else {
        assert Locals(s) == Locals(a) + Locals(b);
        IdsAppend(Locals(a), Locals(b));
        ErasedNone(Locals(s), id);
      }
    }
  }

  lemma NoLocalOf(s: seq<Ent>, id: uint32)
    requires id !in Ids(s)
    ensures id !in Ids(Locals(s))
  {
    forall i | 0 <= i < |Locals(s)| ensures Locals(s)[i].netId != id {
      LocalsMembers(s, Locals(s)[i]);
      var j :| 0 <= j < |s| && s[j] == Locals(s)[i];
      assert Ids(s)[j] == s[j].netId;
    }
  }

  lemma HappenedKeepsOrder(t: Tables, e: Event)
    requires InOrder(t)
    ensures InOrder(Happened(t, e))
  {
    hide Locals;
    match e
    case Alloc(id, controller) =>
      if id !in Ids(t.objects) {
        LocalsAppend(t.objects, [Ent(id, controller)]);
        LocalsOne(Ent(id, controller));
        assert forall i :: 0 <= i < |t.objects| ==> Ids(t.objects)[i] == t.objects[i].netId;
      }
    case Dealloc(id) =>
      LocalsOfErased(t.objects, id);
  }

  // ---------------------------------------------------------------- what the tables mean

  function Noted(m: map<uint32, uint32>, e: Event): map<uint32, uint32> {
    match e
    case Alloc(id, controller) => if id in m then m else m[id := controller]
    case Dealloc(id) => m - {id}
  }

  /** The reference: which numbers are allocated, and to whom, by the events alone. */
  function Meaning(m: map<uint32, uint32>, events: seq<Event>): map<uint32, uint32>
    decreases |events|
  {
    if events == [] then m else Meaning(Noted(m, events[0]), events[1..])
  }

  /** The listed objects are those, with those controllers. */
  ghost predicate Describes(m: map<uint32, uint32>, s: seq<Ent>) {
    (forall e :: e in s ==> e.netId in m && m[e.netId] == e.controller) && (forall id :: id in m <==> id in Ids(s))
  }

  /**
   * Over every sequence of events, duplicates and unknown numbers included: no number is listed
   * twice, the local list is the local part of the object list, and the first allocation of a
   * number decides its controller until it is deallocated.
   */
  lemma {:induction false} TablesMean(t: Tables, m: map<uint32, uint32>, events: seq<Event>)
    requires InOrder(t) && Describes(m, t.objects)
    ensures InOrder(HappenedAll(t, events)) && Describes(Meaning(m, events), HappenedAll(t, events).objects)
    decreases |events|
  {
    hide Locals, Erased, InOrder, Describes;
    if events == [] {
    } else {
      HappenedKeepsOrder(t, events[0]);
      OneEvent(t, m, events[0]);
      TablesMean(Happened(t, events[0]), Noted(m, events[0]), events[1..]);
    }
  }

  lemma OneEvent(t: Tables, m: map<uint32, uint32>, e: Event)
    requires InOrder(t) && Describes(m, t.objects)
    ensures Describes(Noted(m, e), Happened(t, e).objects)
  {
    hide Locals, Erased, Ids;
    match e
    case Alloc(id, controller) =>
      IdsAppend(t.objects, [Ent(id, controller)]);
      IdsOne(Ent(id, controller));
    case Dealloc(id) =>
      if id in Ids(t.objects) {
        var a, x, b := SplitAt(t.objects, id);
        IdsAppend(a + [x], b);
        IdsAppend(a, [x]);
        IdsAppend(a, b);
        IdsOne(x);
        IdsCover(a);
        IdsCover(b);
      }
  }

  lemma IdsOne(e: Ent)
    ensures Ids([e]) == [e.netId]
  {
  }

  lemma IdsCover(s: seq<Ent>)
    ensures forall e :: e in s ==> e.netId in Ids(s)
  {
    forall e | e in s ensures e.netId in Ids(s) {
      var i :| 0 <= i < |s| && s[i] == e;
      assert Ids(s)[i] == e.netId;
    }
  }

  // ---------------------------------------------------------------- all managers

  /** Which manager: the instance's name in the frame's data, and the manager's own. */
  datatype Home = Home(instance: seq<byte>, manager: seq<byte>)

  datatype Client = Client(managers: map<Home, Tables>, controlled: map<uint32, Ent>)

  datatype Message = Message(home: Home, event: Event)

  /** The number is local in the manager's tables. */
  predicate LocalIn(c: Client, h: Home, id: uint32) {
    h in c.managers && Ent(id, CONTROLLER_LOCAL) in c.managers[h].objects
  }

  /** The first object of a number is local. */
  predicate FirstIsLocal(s: seq<Ent>, id: uint32) {
    var i := FirstAt(Ids(s), id);
    i < |s| && IsLocal(s[i])
  }

  function Controlled(c: Client, m: Message): map<uint32, Ent>
    requires m.home in c.managers
  {
    match m.event
    case Alloc(id, controller) =>
      if id in Ids(c.managers[m.home].objects) || controller != CONTROLLER_LOCAL then c.controlled
      else c.controlled[id := Ent(id, controller)]
    case Dealloc(id) =>
      if FirstIsLocal(c.managers[m.home].objects, id) then c.controlled - {id} else c.controlled
  }

  /** A message for a manager that does not exist is an error, and changes nothing. */
  function Handled(c: Client, m: Message): Client {
    if m.home !in c.managers then c
    else Client(c.managers[m.home := Happened(c.managers[m.home], m.event)], Controlled(c, m))
  }

  /**
   * An allocation for a known manager and a number it does not have lists the object last, among the
   * locals and in the controlled table as well if the client controls it; any other changes nothing.
   */
  lemma AllocationIs(c: Client, h: Home, id: uint32, controller: uint32)
    ensures var d := Handled(c, Message(h, Alloc(id, controller)));
      if h !in c.managers || exists i :: 0 <= i < |c.managers[h].objects| && c.managers[h].objects[i].netId == id
        then d == c
      else
        var t, e := c.managers[h], Ent(id, controller);
        var u := Tables(t.objects + [e], if controller == 256 then t.locals + [e] else t.locals);
        && d.managers == c.managers[h := u]
        && d.controlled == if controller == 256 then c.controlled[id := e] else c.controlled
  {
    if h in c.managers {
      assert forall i :: 0 <= i < |c.managers[h].objects| ==>
        Ids(c.managers[h].objects)[i] == c.managers[h].objects[i].netId;
      assert c.managers[h := c.managers[h]] == c.managers;
    }
  }

  /**
   * A deallocation takes the first object of the number, at k, out of the manager's objects, the
   * first of the number among its locals, at n, out of those, and the number out of the controlled
   * table if the object was local. Other managers keep theirs.
   */
  lemma DeallocationIs(c: Client, h: Home, id: uint32, k: nat, n: nat)
    requires h in c.managers
    requires var s := c.managers[h].objects;
      k < |s| && s[k].netId == id && forall i :: 0 <= i < k ==> s[i].netId != id
    requires var l := c.managers[h].locals;
      n <= |l| && (n < |l| ==> l[n].netId == id) && forall i :: 0 <= i < n ==> l[i].netId != id
    ensures var d, s, l := Handled(c, Message(h, Dealloc(id))), c.managers[h].objects, c.managers[h].locals;
      && d.managers == c.managers[h := Tables(s[..k] + s[k + 1..], if n < |l| then l[..n] + l[n + 1..] else l)]
      && d.controlled == if s[k].controller == 256 then c.controlled - {id} else c.controlled
  {
    ErasedIs(c.managers[h].objects, id, k);
    ErasedIs(c.managers[h].locals, id, n);
    hide Erased, Ids, FirstAt;
  }

  /** For an unknown manager, or a number the manager does not have, it changes nothing. */
  lemma DeallocationLost(c: Client, h: Home, id: uint32)
    requires h in c.managers ==> forall i :: 0 <= i < |c.managers[h].objects| ==> c.managers[h].objects[i].netId != id
    ensures Handled(c, Message(h, Dealloc(id))) == c
  {
    if h in c.managers {
      assert c.managers[h := c.managers[h]] == c.managers;
    }
  }

  lemma ErasedIs(s: seq<Ent>, id: uint32, k: nat)
    requires k <= |s| && (k < |s| ==> s[k].netId == id) && forall i :: 0 <= i < k ==> s[i].netId != id
    ensures FirstAt(Ids(s), id) == k && (k < |s| <==> id in Ids(s))
    ensures Erased(s, id) == if k < |s| then s[..k] + s[k + 1..] else s
  {
    if k < |s| {
      assert Ids(s)[k] == id;
    }
  }

  function HandledAll(c: Client, messages: seq<Message>): Client
    decreases |messages|
  {
    if messages == [] then c else HandledAll(Handled(c, messages[0]), messages[1..])
  }

  predicate AllInOrder(c: Client) {
    forall h :: h in c.managers ==> InOrder(c.managers[h])
  }

  /** The controlled table has exactly the numbers that are local in some manager. */
  ghost predicate Exact(c: Client) {
    && (forall id :: id in c.controlled <==> exists h :: LocalIn(c, h, id))
    && (forall id :: id in c.controlled ==> c.controlled[id] == Ent(id, CONTROLLER_LOCAL))
  }

  /** Deallocating a number that is local in two managers. */
  ghost predicate LosesOther(c: Client, m: Message) {
    m.event.Dealloc? && LocalIn(c, m.home, m.event.id) && exists h :: h != m.home && LocalIn(c, h, m.event.id)
  }

  /** In orderly tables the first object of a number is the only one. */
  lemma LocalByNumber(c: Client, h: Home, id: uint32)
    requires h in c.managers && InOrder(c.managers[h])
    ensures LocalIn(c, h, id) <==> FirstIsLocal(c.managers[h].objects, id)
  {
    var s := c.managers[h].objects;
    IdsCover(s);
    if LocalIn(c, h, id) {
      var a, e, b := SplitAt(s, id);
      IdsCover(a);
      IdsCover(b);
    }
  }

  lemma HandledKeepsOrder(c: Client, m: Message)
    requires AllInOrder(c)
    ensures AllInOrder(Handled(c, m)) && Handled(c, m).managers.Keys == c.managers.Keys
  {
    if m.home in c.managers {
      HappenedKeepsOrder(c.managers[m.home], m.event);
    }
  }

  /** Who is local where after one message. */
  predicate LocalNext(c: Client, m: Message, h: Home, id: uint32)
    requires m.home in c.managers
  {
    match m.event
    case Alloc(n, controller) =>
      || LocalIn(c, h, id)
      || (h == m.home && id == n && controller == CONTROLLER_LOCAL && n !in Ids(c.managers[h].objects))
    case Dealloc(n) => LocalIn(c, h, id) && !(h == m.home && id == n)
  }

  lemma LocalAfter(c: Client, m: Message, h: Home, id: uint32)
    requires AllInOrder(c) && m.home in c.managers
    ensures LocalIn(Handled(c, m), h, id) <==> LocalNext(c, m, h, id)
  {
    if h == m.home {
      var t := c.managers[h];
      match m.event
      case Alloc(n, controller) =>
      case Dealloc(n) =>
        if n in Ids(t.objects) {
          assert InOrder(t);
          var a, e, b := SplitAt(t.objects, n);
          IdsCover(a);
          IdsCover(b);
          hide Erased, Ids, InOrder;
          assert Handled(c, m).managers[h].objects == a + b;
        } else {
          IdsCover(t.objects);
        }
    }
  }

  /**
   * A message keeps the controlled table exact exactly when it does not free one of two local
   * objects with one number.
   */
  lemma ExactIff(c: Client, m: Message)
    requires AllInOrder(c) && Exact(c)
    ensures Exact(Handled(c, m)) <==> !LosesOther(c, m)
  {
    if m.home in c.managers {
      var d := Handled(c, m);
      forall h, id ensures LocalIn(d, h, id) <==> LocalNext(c, m, h, id) {
        LocalAfter(c, m, h, id);
      }
      ListedLocals(c, m.home);
      LocalByNumber(c, m.home, m.event.id);
      assert d.controlled == Controlled(c, m);
      hide LocalIn, Handled, AllInOrder, Ids;
      if LosesOther(c, m) {
        var h :| h != m.home && LocalIn(c, h, m.event.id);
        assert LocalIn(d, h, m.event.id);
      } else {
        forall id ensures id in d.controlled <==> exists h :: LocalIn(d, h, id) {
          if id in c.controlled {
            var h :| LocalIn(c, h, id);
            assert LocalIn(d, h, id) <==> LocalNext(c, m, h, id);
          }
          assert LocalIn(d, m.home, id) <==> LocalNext(c, m, m.home, id);
        }
      }
    }
  }

  lemma ListedLocals(c: Client, h: Home)
    requires h in c.managers
    ensures forall id :: LocalIn(c, h, id) ==> id in Ids(c.managers[h].objects)
  {
    IdsCover(c.managers[h].objects);
  }

  // ---------------------------------------------------------------- runs of all managers

  /** The events meant for one manager. */
  function EventsFor(h: Home, messages: seq<Message>): seq<Event> {
    if messages == [] then []
    else (if messages[0].home == h then [messages[0].event] else []) + EventsFor(h, messages[1..])
  }

  lemma {:induction false} EachManagerAlone(c: Client, messages: seq<Message>, h: Home)
    requires h in c.managers
    ensures h in HandledAll(c, messages).managers
    ensures HandledAll(c, messages).managers[h] == HappenedAll(c.managers[h], EventsFor(h, messages))
    decreases |messages|
  {
    hide Happened, Controlled;
    if messages == [] {
    } else {
      EachManagerAlone(Handled(c, messages[0]), messages[1..], h);
      if messages[0].home == h {
        assert EventsFor(h, messages)[1..] == EventsFor(h, messages[1..]);
      } else {
        assert EventsFor(h, messages) == EventsFor(h, messages[1..]);
      }
    }
  }

  /** Every number belongs to one manager, as the numbers the server gives out do. */
  predicate Homed(home: uint32 -> Home, messages: seq<Message>) {
    forall i :: 0 <= i < |messages| ==> messages[i].home == home(messages[i].event.id)
  }

  ghost predicate LocalsHomed(home: uint32 -> Home, c: Client) {
    forall h, id :: LocalIn(c, h, id) ==> h == home(id)
  }

  lemma {:induction false} HomedRun(home: uint32 -> Home, c: Client, messages: seq<Message>)
    requires AllInOrder(c) && Exact(c) && LocalsHomed(home, c) && Homed(home, messages)
    ensures AllInOrder(HandledAll(c, messages)) && Exact(HandledAll(c, messages))
      && LocalsHomed(home, HandledAll(c, messages))
    decreases |messages|
  {
    if messages == [] {
    } else {
      var m := messages[0];
      HandledKeepsOrder(c, m);
      ExactIff(c, m);
      forall h, id | LocalIn(Handled(c, m), h, id) ensures h == home(id) {
        if m.home in c.managers {
          LocalAfter(c, m, h, id);
        }
      }
      hide LocalIn, Handled, AllInOrder, Exact;
      HomedRun(home, Handled(c, m), messages[1..]);
    }
  }

  /** A client with its managers set up and nothing allocated. */
  ghost predicate Fresh(c: Client) {
    c.controlled == map[] && forall h :: h in c.managers ==> c.managers[h] == Tables([], [])
  }

  /**
   * From a fresh client, over every run of messages in which each number belongs to one manager:
   * every manager's tables are what its own events mean, and the controlled table has exactly the
   * numbers that are local somewhere.
   */
  lemma ClientRuns(home: uint32 -> Home, c: Client, messages: seq<Message>)
    requires Fresh(c) && Homed(home, messages)
    ensures var d := HandledAll(c, messages);
      && Exact(d) && AllInOrder(d)
      && forall h :: h in c.managers ==>
        h in d.managers && Describes(Meaning(map[], EventsFor(h, messages)), d.managers[h].objects)
  {
    HomedRun(home, c, messages);
    forall h | h in c.managers
      ensures h in HandledAll(c, messages).managers
        && Describes(Meaning(map[], EventsFor(h, messages)), HandledAll(c, messages).managers[h].objects)
    {
      EachManagerAlone(c, messages, h);
      TablesMean(Tables([], []), map[], EventsFor(h, messages));
    }
  }

  /** One number, local in two managers: freeing the first takes it out of the table for both. */
  lemma SharedNumberIsLost(a: Home, b: Home, id: uint32)
    requires a != b
    ensures var c := Client(map[a := Tables([], []), b := Tables([], [])], map[]);
      var d := HandledAll(c, [Message(a, Alloc(id, CONTROLLER_LOCAL)), Message(b, Alloc(id, CONTROLLER_LOCAL)),
        Message(a, Dealloc(id))]);
      LocalIn(d, b, id) && id !in d.controlled
  {
    var c := Client(map[a := Tables([], []), b := Tables([], [])], map[]);
    var m0, m1, m2 := Message(a, Alloc(id, CONTROLLER_LOCAL)), Message(b, Alloc(id, CONTROLLER_LOCAL)),
      Message(a, Dealloc(id));
    var c1 := Handled(c, m0);
    HandledKeepsOrder(c, m0);
    LocalAfter(c, m0, a, id);
    assert c1.managers[b] == Tables([], []);
    var c2 := Handled(c1, m1);
    HandledKeepsOrder(c1, m1);
    LocalAfter(c1, m1, a, id);
    LocalAfter(c1, m1, b, id);
    LocalAfter(c2, m2, b, id);
    hide Happened, LocalIn;
    var d := Handled(c2, m2);
    assert [m0, m1, m2][1..] == [m1, m2] && [m1, m2][1..] == [m2] && [m2][1..] == [];
    assert HandledAll(c2, [m2]) == HandledAll(d, [m2][1..]) == d;
    assert HandledAll(c1, [m1, m2]) == HandledAll(c2, [m1, m2][1..]) == d;
    assert HandledAll(c, [m0, m1, m2]) == HandledAll(c1, [m0, m1, m2][1..]) == d;
  }

  // ---------------------------------------------------------------- the classes

  class EntityManager {
    var objects: seq<Ent>
    var locals: seq<Ent>

    ghost function Now(): Tables
      reads this
    {
      Tables(objects, locals)
    }

    constructor ()
      ensures Now() == Tables([], [])
    {
      objects, locals := [], [];
    }

    method GetByNetID(id: uint32) returns (found: Option<Ent>)
      ensures found.Some? <==> id in Ids(objects)
      ensures found.Some? ==> found.value == objects[FirstAt(Ids(objects), id)]
      ensures found == None ==> forall e :: e in objects ==> e.netId != id
      ensures found.Some? ==> exists k ::
        && 0 <= k < |objects| && objects[k] == found.value && objects[k].netId == id
        && forall i :: 0 <= i < k ==> objects[i].netId != id
    {
      var i := 0;
      ghost var k := FirstAt(Ids(objects), id);
      while i < |objects|
        invariant 0 <= i <= |objects| && i <= k
      {
        if objects[i].netId == id {
          assert Ids(objects)[i] == id;
          return Some(objects[i]);
        }
        i := i + 1;
      }
      found := None;
    }

    method BuildLocal(id: uint32, controller: uint32) returns (e: Ent)
      modifies this
      ensures e == Ent(id, controller) && Now() == Built(old(Now()), id, controller)
      ensures objects == old(objects) + [Ent(id, controller)]
      ensures locals == old(locals) + if controller == 256 then [Ent(id, controller)] else []
    {
      e := Ent(id, controller);
      objects := objects + [e];
      if e.controller == CONTROLLER_LOCAL {
        locals := locals + [e];
      }
    }

    method FreeLocal(id: uint32)
      modifies this
      ensures Now() == Freed(old(Now()), id)
    {
      objects := FreeListEnt(objects, id);
      locals := FreeListEnt(locals, id);
    }

    /** The object at a place of the local list, which is that place among the local objects. */
    method GetControlled(index: nat) returns (found: Option<Ent>)
      ensures found == if index < |locals| && IsLocal(locals[index]) then Some(locals[index]) else None
      ensures InOrder(Now()) ==> found == if index < |Locals(objects)| then Some(Locals(objects)[index]) else None
    {
      if InOrder(Now()) && index < |locals| {
        LocalsMembers(objects, locals[index]);
      }
      var current := 0;
      while current < |locals|
        invariant 0 <= current <= |locals|
        invariant index < current ==> !IsLocal(locals[index])
      {
        if locals[current].controller == CONTROLLER_LOCAL && current == index {
          return Some(locals[current]);
        }
        current := current + 1;
      }
      found := None;
    }
  }

  method FreeListEnt(list: seq<Ent>, id: uint32) returns (out: seq<Ent>)
    ensures out == Erased(list, id)
    ensures (forall i :: 0 <= i < |list| ==> list[i].netId != id) ==> out == list
    ensures forall k :: 0 <= k < |list| && list[k].netId == id ==>
      (forall i :: 0 <= i < k ==> list[i].netId != id) ==> out == list[..k] + list[k + 1..]
  {
    var i := 0;
    ghost var k := FirstAt(Ids(list), id);
    while i < |list|
      invariant 0 <= i <= |list| && i <= k
    {
      if list[i].netId == id {
        assert Ids(list)[i] == id;
        return list[..i] + list[i + 1..];
      }
      i := i + 1;
    }
    out := list;
  }

  class NetSystemClient {
    const managers: map<Home, EntityManager>
    var controlled: map<uint32, Ent>

    ghost predicate Valid()
      reads this
    {
      forall a, b :: a in managers && b in managers && managers[a] == managers[b] ==> a == b
    }

    ghost function Now(): Client
      reads this, managers.Values
    {
      Client(map h | h in managers :: managers[h].Now(), controlled)
    }

    constructor (managers: map<Home, EntityManager>)
      ensures this.managers == managers && controlled == map[]
    {
      this.managers := managers;
      controlled := map[];
    }

    /** Fails for a name it has no manager for. */
    method EntAllocate(home: Home, id: uint32, controller: uint32) returns (failed: bool)
      requires Valid()
      modifies this, managers.Values
      ensures failed == (home !in managers) && Now() == Handled(old(Now()), Message(home, Alloc(id, controller)))
    {
      if home !in managers {
        return true;
      }
      var manager := managers[home];
      assert manager in managers.Values;
      var existing := manager.GetByNetID(id);
      if existing == None {
        var e := manager.BuildLocal(id, controller);
        if controller == CONTROLLER_LOCAL {
          controlled := controlled[id := e];
        }
      }
      failed := false;
    }

    method EntDeallocate(home: Home, id: uint32) returns (failed: bool)
      requires Valid()
      modifies this, managers.Values
      ensures failed == (home !in managers) && Now() == Handled(old(Now()), Message(home, Dealloc(id)))
    {
      if home !in managers {
        return true;
      }
      failed := false;
      assert managers[home] in managers.Values;
      var target := managers[home].GetByNetID(id);
      assert FirstIsLocal(managers[home].objects, id) <==> target != None && IsLocal(target.value);
      hide Erased, Ids, FirstIsLocal;
      if target != None {
        Free(home, id, target.value.controller == CONTROLLER_LOCAL);
      }
    }

    method Free(home: Home, id: uint32, local: bool)
      requires Valid() && home in managers
      modifies this, managers.Values
      ensures Now() == Client(old(Now()).managers[home := Freed(old(Now()).managers[home], id)],
        if local then old(controlled) - {id} else old(controlled))
    {
      hide Freed;
      assert managers[home] in managers.Values;
      if local {
        if id in controlled {
          controlled := controlled - {id};
        } else {
          assert controlled - {id} == controlled;
        }
      }
      managers[home].FreeLocal(id);
    }
  }
}
