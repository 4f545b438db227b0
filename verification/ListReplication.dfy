/**
 * Replicated keyed lists, the value level: what a list packet does to a table, what a local
 * change queues, and the algebra of replaying packet logs.
 */
module ListReplication {
  import opened NetTypes

  type Key = uint32

  /** The raw bytes of one list element. */
  type Element = seq<byte>

  type Table = map<Key, Element>

  /** The three list messages of EntityMessages.proto, without their addressing fields. */
  datatype Packet =
    | Add(key: Key, value: Element)
    | Update(key: Key, value: Element)
    | Remove(key: Key)

  /** Local changes. The order of a Clear is the order in which the hash map is walked. */
  datatype Change =
    | Create(key: Key, value: Element)
    | Set(key: Key, value: Element)
    | Erase(key: Key)
    | Clear(order: seq<Key>)

  function Lookup(t: Table, k: Key): Option<Element> {
    if k in t then Some(t[k]) else None
  }

  /**
   * The table after a remote packet. `blank` is a default-constructed element and fixes the
   * element size: an Add of the wrong size still leaves the blank element it built.
   */
  function Handle(blank: Element, t: Table, p: Packet): Table {
    match p
    case Add(k, v) =>
      var built := if k in t then t else t[k := blank];
      if |v| == |blank| then built[k := v] else built
    case Update(k, v) => if k in t && |v| == |blank| then t[k := v] else t
    case Remove(k) => t - {k}
  }

  function Replay(blank: Element, t: Table, log: seq<Packet>): Table
    decreases |log|
  {
    if log == [] then t else Replay(blank, Handle(blank, t, log[0]), log[1..])
  }

  lemma HandleTwice(blank: Element, t: Table, p: Packet)
    requires Sized(blank, p)
    ensures Handle(blank, Handle(blank, t, p), p) == Handle(blank, t, p)
  {
  }

  /** Packets whose payload has the element size, the only ones the list itself builds. */
  predicate Sized(blank: Element, p: Packet) {
    p.Remove? || |p.value| == |blank|
  }

  predicate AllSized(blank: Element, log: seq<Packet>) {
    forall i :: 0 <= i < |log| ==> Sized(blank, log[i])
  }

  predicate TableSized(blank: Element, t: Table) {
    forall k :: k in t ==> |t[k]| == |blank|
  }

  /** `order` walks every key of the set exactly once. */
  predicate Enumerates(order: seq<Key>, keys: set<Key>) {
    && (forall k :: k in order ==> k in keys)
    && (forall k :: k in keys ==> k in order)
    && (forall i, j :: 0 <= i < j < |order| ==> order[i] != order[j])
  }

  predicate ChangeOk(blank: Element, t: Table, c: Change) {
    match c
    case Create(_, v) => |v| == |blank|
    case Set(_, v) => |v| == |blank|
    case Erase(_) => true
    case Clear(order) => Enumerates(order, t.Keys)
  }

  function Removes(order: seq<Key>): seq<Packet> {
    seq(|order|, i requires 0 <= i < |order| => Remove(order[i]))
  }

  /** The writer's own table after a local change. */
  function Apply(t: Table, c: Change): Table {
    match c
    case Create(k, v) => if k in t then t else t[k := v]
    case Set(k, v) => if k in t then t[k := v] else t
    case Erase(k) => t - {k}
    case Clear(_) => map[]
  }

  /** The packets a local change pushes on the update queue. */
  function Emit(t: Table, c: Change): seq<Packet> {
    match c
    case Create(k, v) => if k in t then [] else [Add(k, v)]
    case Set(k, v) => if k in t then [Update(k, v)] else []
    case Erase(k) => if k in t then [Remove(k)] else []
    case Clear(order) => Removes(order)
  }

  /** SendContents: one Add for every element, in the walking order. */
  function Dump(t: Table, order: seq<Key>): seq<Packet>
    requires forall k :: k in order ==> k in t
  {
    seq(|order|, i requires 0 <= i < |order| => Add(order[i], t[order[i]]))
  }

  // ---------------------------------------------------------------- replay, one key at a time

  function CellStep(blank: Element, k: Key, c: Option<Element>, p: Packet): Option<Element> {
    if p.key != k then c else
    match p
    case Add(_, v) =>
      if |v| == |blank| then Some(v) else if c.Some? then c else Some(blank)
    case Update(_, v) => if c.Some? && |v| == |blank| then Some(v) else c
    case Remove(_) => None
  }

  function CellReplay(blank: Element, k: Key, c: Option<Element>, log: seq<Packet>): Option<Element>
    decreases |log|
  {
    if log == [] then c else CellReplay(blank, k, CellStep(blank, k, c, log[0]), log[1..])
  }

  lemma {:induction false} ReplayIsPointwise(blank: Element, t: Table, log: seq<Packet>, k: Key)
    ensures Lookup(Replay(blank, t, log), k) == CellReplay(blank, k, Lookup(t, k), log)
    decreases |log|
  {
    if log != [] {
      assert Lookup(Handle(blank, t, log[0]), k) == CellStep(blank, k, Lookup(t, k), log[0]);
      ReplayIsPointwise(blank, Handle(blank, t, log[0]), log[1..], k);
    }
  }

  lemma SameCells(t: Table, u: Table)
    requires forall k :: Lookup(t, k) == Lookup(u, k)
    ensures t == u
  {
    forall k: Key ensures (k in t <==> k in u) && (k in t ==> t[k] == u[k]) {
      assert Lookup(t, k) == Lookup(u, k);
    }
  }

  lemma {:induction false} ReplayConcat(blank: Element, t: Table, a: seq<Packet>, b: seq<Packet>)
    ensures Replay(blank, t, a + b) == Replay(blank, Replay(blank, t, a), b)
    decreases |a|
  {
    if a == [] {
      assert a + b == b;
    } else {
      assert (a + b)[0] == a[0] && (a + b)[1..] == a[1..] + b;
      ReplayConcat(blank, Handle(blank, t, a[0]), a[1..], b);
    }
  }

  lemma {:induction false} CellConcat(blank: Element, k: Key, c: Option<Element>, a: seq<Packet>, b: seq<Packet>)
    ensures CellReplay(blank, k, c, a + b) == CellReplay(blank, k, CellReplay(blank, k, c, a), b)
    decreases |a|
  {
    if a == [] {
      assert a + b == b;
    } else {
      assert (a + b)[0] == a[0] && (a + b)[1..] == a[1..] + b;
      CellConcat(blank, k, CellStep(blank, k, c, a[0]), a[1..], b);
    }
  }

  /** Whether a key survives a log depends on whether it was there, never on its value. */
  lemma {:induction false} PresenceOnly(blank: Element, k: Key, c: Option<Element>, d: Option<Element>,
      log: seq<Packet>)
    requires c.Some? == d.Some?
    ensures CellReplay(blank, k, c, log).Some? == CellReplay(blank, k, d, log).Some?
    decreases |log|
  {
    if log != [] {
      PresenceOnly(blank, k, CellStep(blank, k, c, log[0]), CellStep(blank, k, d, log[0]), log[1..]);
    }
  }

  lemma {:induction false} CellIdempotent(blank: Element, k: Key, c: Option<Element>, log: seq<Packet>)
    requires AllSized(blank, log)
    ensures CellReplay(blank, k, CellReplay(blank, k, c, log), log) == CellReplay(blank, k, c, log)
    decreases |log|
  {
    if log != [] {
      var n := |log| - 1;
      var pre, last := log[..n], log[n];
      assert log == pre + [last];
      var mid := CellReplay(blank, k, c, pre);
      var end := CellStep(blank, k, mid, last);
      CellConcat(blank, k, c, pre, [last]);
      CellConcat(blank, k, end, pre, [last]);
      CellIdempotent(blank, k, c, pre);
      if last.key == k && last.Update? {
        PresenceOnly(blank, k, end, mid, pre);
      }
    }
  }

  /** Replaying a whole log a second time changes nothing. */
  lemma ReplayIdempotent(blank: Element, t: Table, log: seq<Packet>)
    requires AllSized(blank, log)
    ensures Replay(blank, Replay(blank, t, log), log) == Replay(blank, t, log)
  {
    var once := Replay(blank, t, log);
    forall k ensures Lookup(Replay(blank, once, log), k) == Lookup(once, k) {
      ReplayIsPointwise(blank, t, log, k);
      ReplayIsPointwise(blank, once, log, k);
      CellIdempotent(blank, k, Lookup(t, k), log);
    }
    SameCells(Replay(blank, once, log), once);
  }

  /** A peer that already holds the effect of `pre` may receive `pre` again before the rest. */
  lemma SnapshotPlusReplay(blank: Element, t: Table, pre: seq<Packet>, suf: seq<Packet>)
    requires AllSized(blank, pre)
    ensures Replay(blank, Replay(blank, t, pre), pre + suf) == Replay(blank, t, pre + suf)
  {
    ReplayConcat(blank, Replay(blank, t, pre), pre, suf);
    ReplayConcat(blank, t, pre, suf);
    ReplayIdempotent(blank, t, pre);
  }

  // ---------------------------------------------------------------- writer and dump

  lemma {:induction false} ReplayRemoves(blank: Element, t: Table, order: seq<Key>)
    ensures Replay(blank, t, Removes(order)) == t - (set k | k in order)
    decreases |order|
  {
    if order != [] {
      assert Removes(order)[1..] == Removes(order[1..]);
      ReplayRemoves(blank, t - {order[0]}, order[1..]);
      assert (set k | k in order) == {order[0]} + set k | k in order[1..];
    }
  }

  /** What a local change queues, replayed on the old table, gives the new table. */
  lemma EmitMatchesApply(blank: Element, t: Table, c: Change)
    requires ChangeOk(blank, t, c)
    ensures Replay(blank, t, Emit(t, c)) == Apply(t, c)
    ensures AllSized(blank, Emit(t, c))
    ensures TableSized(blank, t) ==> TableSized(blank, Apply(t, c))
  {
    if c.Clear? {
      ReplayRemoves(blank, t, c.order);
      assert (set k | k in c.order) == t.Keys;
    } else if Emit(t, c) != [] {
      assert Replay(blank, t, Emit(t, c)) == Handle(blank, t, Emit(t, c)[0]);
    }
  }

  lemma {:induction false} DumpCell(blank: Element, t: Table, order: seq<Key>, k: Key, c: Option<Element>)
    requires TableSized(blank, t)
    requires forall j :: j in order ==> j in t
    ensures CellReplay(blank, k, c, Dump(t, order)) == if k in order then Some(t[k]) else c
    decreases |order|
  {
    if order != [] {
      var d := Dump(t, order);
      assert d[0] == Add(order[0], t[order[0]]) && d[1..] == Dump(t, order[1..]);
      DumpCell(blank, t, order[1..], k, CellStep(blank, k, c, d[0]));
    }
  }

  /** A dump received on top of any table overlays the sender's table. */
  lemma DumpOverlays(blank: Element, p: Table, t: Table, order: seq<Key>)
    requires TableSized(blank, t) && Enumerates(order, t.Keys)
    ensures Replay(blank, p, Dump(t, order)) == p + t
  {
    var got := Replay(blank, p, Dump(t, order));
    forall k ensures Lookup(got, k) == Lookup(p + t, k) {
      ReplayIsPointwise(blank, p, Dump(t, order), k);
      DumpCell(blank, t, order, k, Lookup(p, k));
    }
    SameCells(got, p + t);
  }

  /** SendContents rebuilds the table from nothing, whatever the walking order. */
  lemma DumpRebuilds(blank: Element, t: Table, order: seq<Key>)
    requires TableSized(blank, t) && Enumerates(order, t.Keys)
    ensures Replay(blank, map[], Dump(t, order)) == t
  {
    DumpOverlays(blank, map[], t, order);
    assert map[] + t == t;
  }

  // ---------------------------------------------------------------- pending queues and joins

  /** Pending packets agree with the table: replaying them on it changes nothing. */
  predicate Consistent(blank: Element, t: Table, queue: seq<Packet>) {
    Replay(blank, t, queue) == t
  }

  lemma ConsistentExtends(blank: Element, t: Table, queue: seq<Packet>, more: seq<Packet>)
    requires AllSized(blank, queue) && AllSized(blank, more)
    requires Consistent(blank, t, queue)
    ensures Consistent(blank, Replay(blank, t, more), queue + more)
  {
    ReplayConcat(blank, t, queue, more);
    ReplayIdempotent(blank, t, queue + more);
  }

  /** Once a log holds a Remove of a key, the key's outcome no longer depends on the start. */
  lemma {:induction false} RemoveForgets(blank: Element, k: Key, c: Option<Element>, d: Option<Element>,
      log: seq<Packet>)
    requires Remove(k) in log
    ensures CellReplay(blank, k, c, log) == CellReplay(blank, k, d, log)
    decreases |log|
  {
    if log[0] != Remove(k) {
      RemoveForgets(blank, k, CellStep(blank, k, c, log[0]), CellStep(blank, k, d, log[0]), log[1..]);
    }
  }

  lemma {:induction false} SurvivesWithoutRemove(blank: Element, k: Key, c: Option<Element>, log: seq<Packet>)
    requires c.Some? && Remove(k) !in log
    ensures CellReplay(blank, k, c, log).Some?
    decreases |log|
  {
    if log != [] {
      assert CellStep(blank, k, c, log[0]).Some?;
      SurvivesWithoutRemove(blank, k, CellStep(blank, k, c, log[0]), log[1..]);
    }
  }

  /** Every key the peer holds and the writer does not is about to be removed by the queue. */
  predicate StaleKeysQueued(p: Table, t: Table, queue: seq<Packet>) {
    forall k :: k in p && k !in t ==> Remove(k) in queue
  }

  predicate Touches(queue: seq<Packet>, k: Key) {
    exists i :: 0 <= i < |queue| && queue[i].key == k
  }

  lemma {:induction false} UntouchedCell(blank: Element, k: Key, c: Option<Element>, log: seq<Packet>)
    requires !Touches(log, k)
    ensures CellReplay(blank, k, c, log) == c
    decreases |log|
  {
    if log != [] {
      assert log[0].key != k;
      assert forall i :: 0 <= i < |log[1..]| ==> log[1..][i] == log[i + 1];
      UntouchedCell(blank, k, c, log[1..]);
    }
  }

  /** The pending packets about one key leave it as the table has it. */
  predicate KeyConsistent(blank: Element, t: Table, queue: seq<Packet>, k: Key) {
    CellReplay(blank, k, Lookup(t, k), queue) == Lookup(t, k)
  }

  /** For instance when none of them is about the key. */
  lemma UntouchedIsConsistent(blank: Element, t: Table, queue: seq<Packet>, k: Key)
    requires !Touches(queue, k)
    ensures KeyConsistent(blank, t, queue, k)
  {
    UntouchedCell(blank, k, Lookup(t, k), queue);
  }

  /** Two logs do the same to a table exactly when they do so to every key either is about. */
  lemma SameEffectIff(blank: Element, t: Table, a: seq<Packet>, b: seq<Packet>)
    ensures Replay(blank, t, a) == Replay(blank, t, b)
      <==> forall k :: Touches(a, k) || Touches(b, k) ==>
        CellReplay(blank, k, Lookup(t, k), a) == CellReplay(blank, k, Lookup(t, k), b)
  {
    var x, y := Replay(blank, t, a), Replay(blank, t, b);
    forall k
      ensures Lookup(x, k) == CellReplay(blank, k, Lookup(t, k), a)
        && Lookup(y, k) == CellReplay(blank, k, Lookup(t, k), b)
      ensures !Touches(a, k) && !Touches(b, k) ==> Lookup(x, k) == Lookup(y, k)
    {
      ReplayIsPointwise(blank, t, a, k);
      ReplayIsPointwise(blank, t, b, k);
      if !Touches(a, k) && !Touches(b, k) {
        UntouchedCell(blank, k, Lookup(t, k), a);
        UntouchedCell(blank, k, Lookup(t, k), b);
      }
    }
    if forall k :: Touches(a, k) || Touches(b, k) ==>
        CellReplay(blank, k, Lookup(t, k), a) == CellReplay(blank, k, Lookup(t, k), b) {
      SameCells(x, y);
    }
  }

  lemma ConsistentIff(blank: Element, t: Table, queue: seq<Packet>)
    ensures Consistent(blank, t, queue) <==> forall k :: Touches(queue, k) ==> KeyConsistent(blank, t, queue, k)
  {
    SameEffectIff(blank, t, queue, []);
  }

  /**
   * What a peer has under one key after a dump and any queue, against what the writer has: the
   * queue must leave the writer's element alone, and remove the key if only the peer had it.
   */
  lemma JoinKeyIff(blank: Element, p: Table, t: Table, queue: seq<Packet>, k: Key)
    ensures Lookup(Replay(blank, p + t, queue), k) == Lookup(t, k)
      <==> KeyConsistent(blank, t, queue, k) && (k in p && k !in t ==> Remove(k) in queue)
  {
    ReplayIsPointwise(blank, p + t, queue, k);
    if k in p && k !in t {
      if Remove(k) in queue {
        RemoveForgets(blank, k, Lookup(p + t, k), Lookup(t, k), queue);
      } else {
        SurvivesWithoutRemove(blank, k, Lookup(p + t, k), queue);
      }
    } else {
      assert Lookup(p + t, k) == Lookup(t, k);
    }
  }

  /**
   * Exactly when a dump followed by the pending queue brings a peer to the writer's table.
   * A dump holds no removals, so a key only the peer has survives unless its Remove is queued.
   */
  lemma JoinConvergesIff(blank: Element, p: Table, t: Table, queue: seq<Packet>)
    ensures Replay(blank, p + t, queue) == t <==> Consistent(blank, t, queue) && StaleKeysQueued(p, t, queue)
  {
    var got := Replay(blank, p + t, queue);
    forall k
      ensures Lookup(got, k) == Lookup(t, k)
        <==> KeyConsistent(blank, t, queue, k) && (k in p && k !in t ==> Remove(k) in queue)
      ensures KeyConsistent(blank, t, queue, k) <==> Lookup(Replay(blank, t, queue), k) == Lookup(t, k)
    {
      JoinKeyIff(blank, p, t, queue, k);
      ReplayIsPointwise(blank, t, queue, k);
    }
    if Consistent(blank, t, queue) && StaleKeysQueued(p, t, queue) {
      SameCells(got, t);
    } else if got == t {
      SameCells(Replay(blank, t, queue), t);
    }
  }

  lemma DumpThenQueueIff(blank: Element, held: Table, t: Table, queue: seq<Packet>, order: seq<Key>)
    requires TableSized(blank, t) && Enumerates(order, t.Keys)
    ensures Replay(blank, held, Dump(t, order) + queue) == t
      <==> Consistent(blank, t, queue) && StaleKeysQueued(held, t, queue)
  {
    ReplayConcat(blank, held, Dump(t, order), queue);
    DumpOverlays(blank, held, t, order);
    JoinConvergesIff(blank, held, t, queue);
  }

  /** A packet applied without being queued upsets the queue, if at all, only at its own key. */
  lemma UnqueuedConsistentIff(blank: Element, t: Table, queue: seq<Packet>, p: Packet)
    requires Consistent(blank, t, queue)
    ensures Consistent(blank, Handle(blank, t, p), queue)
      <==> KeyConsistent(blank, Handle(blank, t, p), queue, p.key)
  {
    var u := Handle(blank, t, p);
    forall k
      ensures Lookup(Replay(blank, u, queue), k) == Lookup(u, k)
        <==> k != p.key || KeyConsistent(blank, u, queue, p.key)
    {
      ReplayIsPointwise(blank, u, queue, k);
      ReplayIsPointwise(blank, t, queue, k);
      if k != p.key {
        assert Lookup(u, k) == Lookup(t, k);
      }
    }
    if KeyConsistent(blank, u, queue, p.key) {
      SameCells(Replay(blank, u, queue), u);
    }
  }

  // ---------------------------------------------------------------- changes and packets that cross

  /** What a change's packets leave under a key they are about. */
  lemma EmitCell(blank: Element, t: Table, c: Change, k: Key, cell: Option<Element>)
    requires ChangeOk(blank, t, c) && Touches(Emit(t, c), k)
    ensures CellReplay(blank, k, cell, Emit(t, c)) ==
      match c
      case Create(_, v) => Some(v)
      case Set(_, v) => if cell.Some? then Some(v) else None
      case Erase(_) => None
      case Clear(_) => None
    ensures Lookup(Apply(t, c), k) == if c.Create? || c.Set? then Some(c.value) else None
  {
    var log := Emit(t, c);
    if c.Clear? {
      assert Remove(k) in log;
      RemoveForgets(blank, k, cell, None, log);
      ReplayRemoves(blank, map[], c.order);
      ReplayIsPointwise(blank, map[], log, k);
    } else {
      assert log == [log[0]] && log[0].key == k;
      assert CellReplay(blank, k, cell, log) == CellStep(blank, k, cell, log[0]);
    }
  }

  /**
   * A log that crosses a change leaves the changed key alone: the value it was given, or, for
   * one that was set, nothing at all.
   */
  predicate Undisturbed(blank: Element, t: Table, c: Change, log: seq<Packet>, k: Key) {
    var given := Lookup(Apply(t, c), k);
    var left := CellReplay(blank, k, given, log);
    left == given || (c.Set? && left == None)
  }

  /** Whether a log comes before a change's packets or after them makes no difference, if and only if. */
  lemma CrossingIff(blank: Element, t: Table, c: Change, log: seq<Packet>)
    requires ChangeOk(blank, t, c)
    ensures Replay(blank, Apply(t, c), log) == Replay(blank, Replay(blank, t, log), Emit(t, c))
      <==> forall k :: Touches(Emit(t, c), k) ==> Undisturbed(blank, t, c, log, k)
  {
    var e := Emit(t, c);
    var x, y := Replay(blank, Apply(t, c), log), Replay(blank, Replay(blank, t, log), e);
    EmitMatchesApply(blank, t, c);
    forall k
      ensures Touches(e, k) ==> (Lookup(x, k) == Lookup(y, k) <==> Undisturbed(blank, t, c, log, k))
      ensures !Touches(e, k) ==> Lookup(x, k) == Lookup(y, k)
    {
      CrossingCell(blank, t, c, log, k);
    }
    if forall k :: Touches(e, k) ==> Undisturbed(blank, t, c, log, k) {
      SameCells(x, y);
    }
  }

  lemma CrossingCell(blank: Element, t: Table, c: Change, log: seq<Packet>, k: Key)
    requires ChangeOk(blank, t, c)
    ensures var e := Emit(t, c);
      var x, y := Replay(blank, Apply(t, c), log), Replay(blank, Replay(blank, t, log), e);
      if Touches(e, k) then Lookup(x, k) == Lookup(y, k) <==> Undisturbed(blank, t, c, log, k)
      else Lookup(x, k) == Lookup(y, k)
  {
    var e := Emit(t, c);
    EmitMatchesApply(blank, t, c);
    ReplayIsPointwise(blank, t, e, k);
    ReplayIsPointwise(blank, Apply(t, c), log, k);
    ReplayIsPointwise(blank, t, log, k);
    ReplayIsPointwise(blank, Replay(blank, t, log), e, k);
    var before := CellReplay(blank, k, Lookup(t, k), log);
    if Touches(e, k) {
      EmitCell(blank, t, c, k, before);
      if c.Set? {
        PresenceOnly(blank, k, Lookup(t, k), Lookup(Apply(t, c), k), log);
      }
    } else {
      UntouchedCell(blank, k, Lookup(t, k), e);
      UntouchedCell(blank, k, before, e);
    }
  }
}
