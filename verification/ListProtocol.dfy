/**
 * The replication protocol of one keyed list as a state machine: a server, its connected peers
 * with in-order reliable channels, and one writer, which is the server itself or the client
 * that owns the object the list belongs to.
 */
module ListProtocol {
  import opened NetTypes
  import opened ListReplication
  import opened ListDelivery

  datatype Writer = ServerWrites | OwnerWrites(owner: Peer)

  datatype Config = Config(blank: Element, writer: Writer)

  datatype System = System(
    table: Table,                      // the server's copy
    queue: seq<Entry>,                 // the server's update queue
    players: seq<Peer>,                // peers of the manager's objects, one per object
    connected: seq<Peer>,              // the server's peer list
    down: map<Peer, seq<Packet>>,      // packets on their way to each peer
    replica: map<Peer, Table>,         // each peer's copy; the owner's is the writer's when it writes
    clean: set<Peer>,                  // players whose last join was a clean one
    ownerQueue: seq<Packet>,           // the writing owner's update queue
    up: seq<Packet>)                   // packets on their way from the owner to the server

  datatype Event =
    | Write(change: Change)            // the writer changes its table
    | OwnerFlush                       // the owner's update tick
    | Receive                          // the server handles the owner's next packet
    | Flush                            // the server's update tick
    | Deliver(peer: Peer)              // a peer handles its next packet
    | Connect(peer: Peer, order: seq<Key>)   // a fresh client connects and is sent a dump
    | Join(peer: Peer, order: seq<Key>)      // an object is built for a peer; another dump
    | Leave(index: nat)                // a player object is freed
    | Disconnect(peer: Peer)

  predicate Wellformed(s: System) {
    && s.down.Keys == s.replica.Keys
    && (forall p :: p in s.connected ==> p in s.down)
    && (forall p :: p in s.down ==> p in s.connected)
    && (forall p :: p in s.players ==> p in s.connected)
  }

  /** A list is built empty, with its owner among the players, on every peer at once. */
  predicate Init(c: Config, s: System) {
    && Wellformed(s)
    && s.table == map[] && s.queue == [] && s.ownerQueue == [] && s.up == []
    && (forall p :: p in s.down ==> s.down[p] == [] && s.replica[p] == map[])
    && (c.writer.OwnerWrites? ==> c.writer.owner in s.players)
    && s.clean == (set p | p in s.players && !(c.writer.OwnerWrites? && p == c.writer.owner))
  }

  function Outstanding(c: Config, s: System, p: Peer): Table
    requires Wellformed(s) && p in s.connected
  {
    Replay(c.blank, s.replica[p], s.down[p])
  }

  /** What the code itself needs for a step to happen. */
  predicate Possible(c: Config, s: System, e: Event)
    requires Wellformed(s)
  {
    match e
    case Write(change) =>
      if c.writer.ServerWrites? then ChangeOk(c.blank, s.table, change)
      else c.writer.owner in s.connected && ChangeOk(c.blank, s.replica[c.writer.owner], change)
    case OwnerFlush => c.writer.OwnerWrites?
    case Receive => c.writer.OwnerWrites? && s.up != []
    case Flush => true
    case Deliver(p) => p in s.connected && s.down[p] != []
    case Connect(p, order) => p !in s.connected && Enumerates(order, s.table.Keys)
    case Join(p, order) => p in s.connected && Enumerates(order, s.table.Keys)
    case Leave(i) => i < |s.players| && (c.writer.OwnerWrites? ==> c.writer.owner in Without(s.players, i))
    case Disconnect(p) => p in s.connected && !IsWriter(c, p)
  }

  predicate IsWriter(c: Config, p: Peer) {
    c.writer.OwnerWrites? && c.writer.owner == p
  }

  function Without(players: seq<Peer>, i: nat): seq<Peer>
    requires i < |players|
  {
    players[..i] + players[i + 1..]
  }

  function WithoutPeer(players: seq<Peer>, p: Peer): seq<Peer>
    ensures forall q :: q in WithoutPeer(players, p) <==> q in players && q != p
  {
    if players == [] then []
    else (if players[0] == p then [] else [players[0]]) + WithoutPeer(players[1..], p)
  }

  /** The server's own table agrees with what is pending, so that a dump and the queue do not contradict. */
  predicate QueueAgrees(c: Config, s: System) {
    Consistent(c.blank, s.table, Packets(s.queue))
  }

  /**
   * A join after which the peer converges: the queue agrees with the table, and removes every
   * key that the peer has, or is about to have, and the server has not.
   */
  predicate CleanJoin(c: Config, s: System, p: Peer)
    requires Wellformed(s) && p in s.connected
  {
    !IsWriter(c, p) && QueueAgrees(c, s) && StaleKeysQueued(Outstanding(c, s, p), s.table, Packets(s.queue))
  }

  function Step(c: Config, s: System, e: Event): System
    requires Wellformed(s) && Possible(c, s, e)
  {
    match e
    case Write(change) =>
      if c.writer.ServerWrites? then
        s.(table := Apply(s.table, change),
           queue := s.queue + Queueing(Emit(s.table, change), None))
      else
        var own := s.replica[c.writer.owner];
        s.(replica := s.replica[c.writer.owner := Apply(own, change)],
           ownerQueue := s.ownerQueue + Emit(own, change))
    case OwnerFlush =>
      s.(up := s.up + s.ownerQueue, ownerQueue := [])
    case Receive =>
      s.(up := s.up[1..],
         table := Handle(c.blank, s.table, s.up[0]),
         queue := s.queue + Relay(c.blank, s.table, s.players, Some(c.writer.owner), s.up[0]))
    case Flush =>
      var sends := FlushSends(s.queue, s.players, s.connected);
      s.(queue := [], down := map p | p in s.down :: s.down[p] + SentTo(sends, p))
    case Deliver(p) =>
      s.(down := s.down[p := s.down[p][1..]],
         replica := s.replica[p := Handle(c.blank, s.replica[p], s.down[p][0])])
    case Connect(p, order) =>
      s.(connected := s.connected + [p],
         down := s.down[p := Dump(s.table, order)],
         replica := s.replica[p := map[]],
         clean := s.clean - {p})
    case Join(p, order) =>
      s.(players := s.players + [p],
         down := s.down[p := s.down[p] + Dump(s.table, order)],
         clean := if CleanJoin(c, s, p) then s.clean + {p} else s.clean - {p})
    case Leave(i) =>
      var left := Without(s.players, i);
      s.(players := left, clean := set p | p in s.clean && p in left)
    case Disconnect(p) =>
      s.(players := WithoutPeer(s.players, p), connected := WithoutPeer(s.connected, p),
         down := s.down - {p}, replica := s.replica - {p}, clean := s.clean - {p})
  }

  // ---------------------------------------------------------------- the invariant

  /** What a player will hold once its channel and the update queue have drained. */
  function Bound(c: Config, s: System, p: Peer): Table
    requires Wellformed(s) && p in s.connected
  {
    Replay(c.blank, s.replica[p], s.down[p] + Packets(s.queue))
  }

  /** A player will hold the server's table once its channel and the update queue have drained. */
  predicate Converges(c: Config, s: System, p: Peer)
    requires Wellformed(s) && p in s.connected
  {
    Bound(c, s, p) == s.table
  }

  /** What is on its way from a writing owner, sent or not. */
  function Rising(s: System): seq<Packet> {
    s.up + s.ownerQueue
  }

  predicate OwnerShape(c: Config, s: System)
    requires Wellformed(s)
  {
    c.writer.OwnerWrites? ==>
      && c.writer.owner in s.players
      && c.writer.owner !in s.clean
      && AllSized(c.blank, Rising(s))
      && TableSized(c.blank, s.replica[c.writer.owner])
  }

  predicate Filtered(c: Config, s: System) {
    forall i :: 0 <= i < |s.queue| ==>
      s.queue[i].filter == if c.writer.OwnerWrites? then Some(c.writer.owner) else None
  }

  /** What every step the code can take keeps. */
  predicate Inv(c: Config, s: System) {
    && Wellformed(s)
    && TableSized(c.blank, s.table)
    && AllSized(c.blank, Packets(s.queue))
    && Filtered(c, s)
    && OwnerShape(c, s)
    && (forall p :: p in s.clean ==> p in s.players)
    && (forall p :: p in s.clean ==> Converges(c, s, p))
  }

  lemma InitInv(c: Config, s: System)
    requires Init(c, s)
    ensures Inv(c, s) && QueueAgrees(c, s)
  {
    forall p | p in s.clean ensures Converges(c, s, p) {
      assert s.down[p] + Packets(s.queue) == [];
    }
  }

  /** A clean player's convergence survives any extension of the queue the table follows. */
  lemma ConvergesExtends(c: Config, s: System, s': System, p: Peer, more: seq<Entry>)
    requires Wellformed(s) && Wellformed(s') && p in s.connected && p in s'.connected
    requires Converges(c, s, p)
    requires s'.replica[p] == s.replica[p] && s'.down[p] == s.down[p] && s'.queue == s.queue + more
    requires s'.table == Replay(c.blank, s.table, Packets(more))
    ensures Converges(c, s', p)
  {
    PacketsConcat(s.queue, more);
    var log := s.down[p] + Packets(s.queue);
    assert s'.down[p] + Packets(s'.queue) == log + Packets(more);
    ReplayConcat(c.blank, s.replica[p], log, Packets(more));
  }

  /** The server's queue and the clean players after the queue has grown. */
  lemma QueueGrows(c: Config, s: System, s': System, more: seq<Entry>)
    requires Inv(c, s) && Wellformed(s')
    requires s'.queue == s.queue + more && s'.table == Replay(c.blank, s.table, Packets(more))
    requires s'.connected == s.connected && s'.down == s.down && s'.clean == s.clean
    requires forall p :: p in s.clean ==> s'.replica[p] == s.replica[p]
    requires AllSized(c.blank, Packets(more))
    ensures AllSized(c.blank, Packets(s'.queue))
    ensures QueueAgrees(c, s) ==> QueueAgrees(c, s')
    ensures forall p :: p in s'.clean ==> Converges(c, s', p)
  {
    PacketsConcat(s.queue, more);
    if QueueAgrees(c, s) {
      ConsistentExtends(c.blank, s.table, Packets(s.queue), Packets(more));
    }
    forall p | p in s.clean ensures Converges(c, s', p) {
      ConvergesExtends(c, s, s', p, more);
    }
  }

  lemma ServerWriteKeepsInv(c: Config, s: System, change: Change)
    requires Inv(c, s) && Possible(c, s, Write(change)) && c.writer.ServerWrites?
    ensures Inv(c, Step(c, s, Write(change)))
    ensures QueueAgrees(c, s) ==> QueueAgrees(c, Step(c, s, Write(change)))
  {
    var log := Emit(s.table, change);
    EmitMatchesApply(c.blank, s.table, change);
    assert Packets(Queueing(log, None)) == log;
    QueueGrows(c, s, Step(c, s, Write(change)), Queueing(log, None));
  }

  lemma OwnerWriteKeepsInv(c: Config, s: System, change: Change)
    requires Inv(c, s) && Possible(c, s, Write(change)) && c.writer.OwnerWrites?
    ensures Inv(c, Step(c, s, Write(change)))
  {
    var own := s.replica[c.writer.owner];
    var s' := Step(c, s, Write(change));
    EmitMatchesApply(c.blank, own, change);
    assert Rising(s') == Rising(s) + Emit(own, change);
    forall p | p in s.clean ensures Converges(c, s', p) {
      assert Converges(c, s, p);
    }
  }

  /** Whether the packet is relayed or not: where it is not, no player but the owner is left. */
  lemma ReceiveKeepsInv(c: Config, s: System)
    requires Inv(c, s) && Possible(c, s, Receive)
    ensures Inv(c, Step(c, s, Receive))
    ensures QueueAgrees(c, s) ==> (QueueAgrees(c, Step(c, s, Receive)) <==> RelayKept(c, s))
  {
    var s' := Step(c, s, Receive);
    var m := s.up[0];
    assert Rising(s)[0] == m && Rising(s)[1..] == Rising(s');
    assert forall i :: 0 <= i < |Rising(s')| ==> Rising(s')[i] == Rising(s)[i + 1];
    var more := Relay(c.blank, s.table, s.players, Some(c.writer.owner), m);
    if |s.players| > 1 {
      RelayEquivalentIff(c.blank, s.table, s.players, Some(c.writer.owner), m);
      QueueGrows(c, s, s', more);
    } else {
      assert s'.queue == s.queue;
      assert s.players == [c.writer.owner];
      if QueueAgrees(c, s) {
        UnqueuedConsistentIff(c.blank, s.table, Packets(s.queue), m);
      }
    }
  }

  /** A tick brings every player what it was bound to hold, neither more nor less. */
  lemma FlushBinds(c: Config, s: System, p: Peer)
    requires Wellformed(s) && AllSized(c.blank, Packets(s.queue)) && Filtered(c, s)
    requires p in s.players && !IsWriter(c, p)
    ensures Wellformed(Step(c, s, Flush)) && Bound(c, Step(c, s, Flush), p) == Bound(c, s, p)
  {
    var s' := Step(c, s, Flush);
    var sent := SentTo(FlushSends(s.queue, s.players, s.connected), p);
    FlushDeliversQueue(c.blank, Outstanding(c, s, p), s.queue, s.players, s.connected, p);
    ReplayConcat(c.blank, s.replica[p], s.down[p], sent);
    ReplayConcat(c.blank, s.replica[p], s.down[p], Packets(s.queue));
    assert s'.down[p] + Packets(s'.queue) == s.down[p] + sent;
  }

  lemma FlushKeepsInv(c: Config, s: System)
    requires Inv(c, s)
    ensures Inv(c, Step(c, s, Flush)) && QueueAgrees(c, Step(c, s, Flush))
  {
    forall p | p in s.clean ensures Converges(c, Step(c, s, Flush), p) {
      assert Converges(c, s, p);
      FlushBinds(c, s, p);
    }
  }

  lemma DeliverBinds(c: Config, s: System, p: Peer, q: Peer)
    requires Wellformed(s) && Possible(c, s, Deliver(p)) && q in s.connected
    ensures Wellformed(Step(c, s, Deliver(p))) && Bound(c, Step(c, s, Deliver(p)), q) == Bound(c, s, q)
  {
    if q == p {
      var s' := Step(c, s, Deliver(p));
      var log := s.down[p] + Packets(s.queue);
      assert log[0] == s.down[p][0] && log[1..] == s'.down[p] + Packets(s'.queue);
    }
  }

  lemma DeliverKeepsInv(c: Config, s: System, p: Peer)
    requires Inv(c, s) && Possible(c, s, Deliver(p))
    ensures Inv(c, Step(c, s, Deliver(p)))
  {
    forall q | q in s.clean ensures Converges(c, Step(c, s, Deliver(p)), q) {
      assert Converges(c, s, q);
      DeliverBinds(c, s, p, q);
    }
  }

  lemma ConnectKeepsInv(c: Config, s: System, p: Peer, order: seq<Key>)
    requires Inv(c, s) && Possible(c, s, Connect(p, order))
    ensures Inv(c, Step(c, s, Connect(p, order)))
  {
    var s' := Step(c, s, Connect(p, order));
    forall q | q in s'.clean ensures q in s'.players && Converges(c, s', q) {
      assert Converges(c, s, q);
    }
  }

  /**
   * Exactly when an object built for a connected peer leaves that peer converging. A dump alone
   * never removes anything, and a queue that contradicts the table follows it.
   */
  lemma JoinConvergesExactly(c: Config, s: System, p: Peer, order: seq<Key>)
    requires Inv(c, s) && Possible(c, s, Join(p, order))
    ensures Converges(c, Step(c, s, Join(p, order)), p)
      <==> QueueAgrees(c, s) && StaleKeysQueued(Outstanding(c, s, p), s.table, Packets(s.queue))
  {
    var log := Dump(s.table, order) + Packets(s.queue);
    assert s.down[p] + Dump(s.table, order) + Packets(s.queue) == s.down[p] + log;
    ReplayConcat(c.blank, s.replica[p], s.down[p], log);
    DumpThenQueueIff(c.blank, Outstanding(c, s, p), s.table, Packets(s.queue), order);
  }

  /** A peer whose object is built straight after it connected holds no stale key. */
  lemma JoinAfterConnectIsClean(c: Config, s: System, p: Peer, first: seq<Key>, second: seq<Key>)
    requires Inv(c, s) && Possible(c, s, Connect(p, first)) && !IsWriter(c, p) && Enumerates(second, s.table.Keys)
    ensures var t := Step(c, s, Connect(p, first));
      && Wellformed(t) && Possible(c, t, Join(p, second))
      && (p in Step(c, t, Join(p, second)).clean <==> QueueAgrees(c, s))
  {
    var t := Step(c, s, Connect(p, first));
    DumpRebuilds(c.blank, s.table, first);
    assert Outstanding(c, t, p) == s.table;
  }

  lemma JoinKeepsInv(c: Config, s: System, p: Peer, order: seq<Key>)
    requires Inv(c, s) && Possible(c, s, Join(p, order))
    ensures Inv(c, Step(c, s, Join(p, order)))
  {
    var s' := Step(c, s, Join(p, order));
    JoinConvergesExactly(c, s, p, order);
    forall q | q in s'.clean ensures q in s'.players && Converges(c, s', q) {
      if q != p {
        assert Converges(c, s, q);
      }
    }
  }

  lemma LeaveKeepsInv(c: Config, s: System, e: Event)
    requires Inv(c, s) && Possible(c, s, e) && (e.Leave? || e.Disconnect?)
    ensures Inv(c, Step(c, s, e))
  {
    var s' := Step(c, s, e);
    if e.Leave? {
      assert forall q :: q in s'.players ==> q in s.players;
    }
    forall q | q in s'.clean ensures q in s'.players && Converges(c, s', q) {
      assert Converges(c, s, q);
    }
  }

  /**
   * What converging means: moved along until nothing is left for it, a player's packets leave it
   * exactly what it was bound to hold, which is the server's table if and only if it converged.
   */
  lemma {:induction false} DrainPlayer(c: Config, s: System, p: Peer) returns (events: seq<Event>, end: System)
    requires Inv(c, s) && p in s.players && !IsWriter(c, p)
    ensures RunsTo(c, s, events, end) && Inv(c, end) && end.table == s.table && p in end.players
    ensures end.queue == [] && end.down[p] == [] && end.replica[p] == Bound(c, s, p)
    ensures end.up == s.up && end.ownerQueue == s.ownerQueue
    ensures end.replica[p] == end.table <==> Converges(c, s, p)
    decreases |s.queue|, |s.down[p]|
  {
    if s.queue == [] && s.down[p] == [] {
      assert s.down[p] + Packets(s.queue) == [];
      return [], s;
    }
    var e := if s.queue != [] then Flush else Deliver(p);
    StepKeepsInv(c, s, e);
    if s.queue != [] {
      FlushBinds(c, s, p);
    } else {
      DeliverBinds(c, s, p, p);
    }
    var rest;
    rest, end := DrainPlayer(c, Step(c, s, e), p);
    events := [e] + rest;
    assert events[1..] == rest;
  }

  /** Every step keeps the invariant. */
  lemma StepKeepsInv(c: Config, s: System, e: Event)
    requires Inv(c, s) && Possible(c, s, e)
    ensures Inv(c, Step(c, s, e))
  {
    match e
    case Write(change) =>
      if c.writer.ServerWrites? {
        ServerWriteKeepsInv(c, s, change);
      } else {
        OwnerWriteKeepsInv(c, s, change);
      }
    case OwnerFlush =>
      assert Rising(Step(c, s, e)) == Rising(s);
      forall p | p in s.clean ensures Converges(c, Step(c, s, e), p) {
        assert Converges(c, s, p);
      }
    case Receive => ReceiveKeepsInv(c, s);
    case Flush => FlushKeepsInv(c, s);
    case Deliver(p) => DeliverKeepsInv(c, s, p);
    case Connect(p, order) => ConnectKeepsInv(c, s, p, order);
    case Join(p, order) => JoinKeepsInv(c, s, p, order);
    case Leave(_) => LeaveKeepsInv(c, s, e);
    case Disconnect(_) => LeaveKeepsInv(c, s, e);
  }

  /** A clean player stays clean for as long as it has an object, however many more are built for it. */
  lemma CleanStaysClean(c: Config, s: System, e: Event, p: Peer)
    requires Inv(c, s) && Possible(c, s, e) && p in s.clean && p in Step(c, s, e).players
    ensures p in Step(c, s, e).clean
  {
    if e.Join? && e.peer == p {
      var held, queue := Outstanding(c, s, p), Packets(s.queue);
      assert Converges(c, s, p);
      ReplayConcat(c.blank, s.replica[p], s.down[p], queue);
      ReplayIdempotent(c.blank, held, queue);
      forall k | k in held && k !in s.table ensures Remove(k) in queue {
        ReplayIsPointwise(c.blank, held, queue, k);
        if Remove(k) !in queue {
          SurvivesWithoutRemove(c.blank, k, Lookup(held, k), queue);
        }
      }
    }
  }

  // ---------------------------------------------------------------- the queue and the table

  /** The packet is relayed, or what is pending for its key agrees with it. */
  predicate RelayKept(c: Config, s: System)
    requires s.up != []
  {
    |s.players| > 1
    || KeyConsistent(c.blank, Handle(c.blank, s.table, s.up[0]), Packets(s.queue), s.up[0].key)
  }

  /**
   * The queue stops agreeing with the table exactly at an unrelayed packet it contradicts, and
   * agrees again once flushed.
   */
  lemma QueueAgreesIff(c: Config, s: System, e: Event)
    requires Inv(c, s) && Possible(c, s, e)
    ensures e.Flush? ==> QueueAgrees(c, Step(c, s, e))
    ensures QueueAgrees(c, s) ==> (QueueAgrees(c, Step(c, s, e)) <==> (e.Receive? ==> RelayKept(c, s)))
  {
    match e
    case Write(change) =>
      if c.writer.ServerWrites? {
        ServerWriteKeepsInv(c, s, change);
      }
    case Receive => ReceiveKeepsInv(c, s);
    case Flush => FlushKeepsInv(c, s);
    case _ =>
  }

  /** An unrelayed packet agrees with the queue, for one, if nothing queued is about its key. */
  lemma UntouchedIsKept(c: Config, s: System)
    requires s.up != [] && !Touches(Packets(s.queue), s.up[0].key)
    ensures RelayKept(c, s)
  {
    UntouchedIsConsistent(c.blank, Handle(c.blank, s.table, s.up[0]), Packets(s.queue), s.up[0].key);
  }

  // ---------------------------------------------------------------- runs

  /** The states of a run: every event can happen where it does. */
  predicate RunsTo(c: Config, s: System, events: seq<Event>, end: System)
    decreases |events|
  {
    if events == [] then s == end
    else Wellformed(s) && Possible(c, s, events[0]) && RunsTo(c, Step(c, s, events[0]), events[1..], end)
  }

  lemma {:induction false} RunKeepsInv(c: Config, s: System, events: seq<Event>, end: System)
    requires Inv(c, s) && RunsTo(c, s, events, end)
    ensures Inv(c, end)
    decreases |events|
  {
    if events != [] {
      StepKeepsInv(c, s, events[0]);
      RunKeepsInv(c, Step(c, s, events[0]), events[1..], end);
    }
  }

  /**
   * List convergence over every run the code can take, whoever writes. Any player whose join was
   * clean holds the server's table once its channel and the queue are empty.
   */
  lemma Convergence(c: Config, s: System, events: seq<Event>, end: System, p: Peer)
    requires Init(c, s) && RunsTo(c, s, events, end)
    requires p in end.clean
    ensures Inv(c, end)
    ensures p in end.connected && Converges(c, end, p)
    ensures end.down[p] == [] && end.queue == [] ==> end.replica[p] == end.table
  {
    InitInv(c, s);
    RunKeepsInv(c, s, events, end);
    if end.down[p] == [] && end.queue == [] {
      assert end.down[p] + Packets(end.queue) == [];
    }
  }
}
