/**
 * A writing owner and the server. Packets rise from the owner to the server, and some fall back:
 * dumps of its own list, and, while the owner is the only player and the default peer, all that
 * the server relays. Whether both will hold the same once nothing is left between them is decided
 * step by step.
 */
module ListOwner {
  import opened NetTypes
  import opened ListReplication
  import opened ListDelivery
  import opened ListProtocol

  /**
   * What the server's ticks will send back to a writing owner of all that is queued or rising,
   * as long as these are the players and the connected peers.
   */
  function Echo(c: Config, s: System, players: seq<Peer>, connected: seq<Peer>): seq<Packet>
    requires c.writer.OwnerWrites?
  {
    if OnlyOwnerListens(c.writer.owner, players, connected) then
      Packets(s.queue + RelayAll(c.blank, s.table, players, Some(c.writer.owner), Rising(s)))
    else []
  }

  /** All that a writing owner is going to be handed, unless somebody writes, joins or leaves. */
  function Falling(c: Config, s: System): seq<Packet>
    requires Wellformed(s) && c.writer.OwnerWrites? && c.writer.owner in s.connected
  {
    s.down[c.writer.owner] + Echo(c, s, s.players, s.connected)
  }

  /** What the owner ends with once it has handled all that, and the server all that rises. */
  function OwnerEnd(c: Config, s: System): Table
    requires Wellformed(s) && c.writer.OwnerWrites? && c.writer.owner in s.connected
  {
    Replay(c.blank, s.replica[c.writer.owner], Falling(c, s))
  }

  function ServerEnd(c: Config, s: System): Table {
    Replay(c.blank, s.table, Rising(s))
  }

  /** Both will hold the same. */
  predicate Settles(c: Config, s: System)
    requires Wellformed(s) && c.writer.OwnerWrites? && c.writer.owner in s.connected
  {
    OwnerEnd(c, s) == ServerEnd(c, s)
  }

  // ---------------------------------------------------------------- draining

  /** A packet the server handles was rising before, and what is relayed of it was coming back. */
  lemma AfterReceive(c: Config, s: System, s': System)
    requires Wellformed(s) && Wellformed(s') && c.writer.OwnerWrites? && c.writer.owner in s.connected && s.up != []
    requires s' == s.(up := s.up[1..], table := Handle(c.blank, s.table, s.up[0]),
      queue := s.queue + Relay(c.blank, s.table, s.players, Some(c.writer.owner), s.up[0]))
    ensures OwnerEnd(c, s') == OwnerEnd(c, s) && ServerEnd(c, s') == ServerEnd(c, s)
  {
    var first := Relay(c.blank, s.table, s.players, Some(c.writer.owner), s.up[0]);
    var rest := RelayAll(c.blank, s'.table, s.players, Some(c.writer.owner), Rising(s'));
    assert Rising(s)[0] == s.up[0] && Rising(s)[1..] == Rising(s');
    hide Packets, Relay, Handle, OnlyOwnerListens, Wellformed;
    assert (s.queue + first) + rest == s.queue + (first + rest);
    assert Falling(c, s') == Falling(c, s);
  }

  lemma FlushMoves(c: Config, s: System)
    requires Inv(c, s) && c.writer.OwnerWrites?
    ensures var s' := Step(c, s, Flush);
      && Wellformed(s') && s' == s.(queue := [], down := s'.down)
      && s'.down[c.writer.owner] == s.down[c.writer.owner]
        + if OnlyOwnerListens(c.writer.owner, s.players, s.connected) then Packets(s.queue) else []
  {
    assert c.writer.owner in s.down;
    EchoIsQueue(s.queue, s.players, s.connected, c.writer.owner);
    hide Inv, FlushSends, SentTo, Packets, OnlyOwnerListens;
  }

  /** What moves from the queue to the channel was coming back before, too. */
  lemma AfterFlush(c: Config, s: System, s': System)
    requires Wellformed(s) && Wellformed(s') && c.writer.OwnerWrites? && c.writer.owner in s.connected
    requires s' == s.(queue := [], down := s'.down)
    requires s'.down[c.writer.owner] == s.down[c.writer.owner]
      + if OnlyOwnerListens(c.writer.owner, s.players, s.connected) then Packets(s.queue) else []
    ensures OwnerEnd(c, s') == OwnerEnd(c, s) && ServerEnd(c, s') == ServerEnd(c, s)
  {
    var back := RelayAll(c.blank, s.table, s.players, Some(c.writer.owner), Rising(s));
    PacketsConcat(s.queue, back);
    assert [] + back == back;
    hide Packets, RelayAll, OnlyOwnerListens, Wellformed, Replay;
    assert Echo(c, s', s.players, s.connected)
      == if OnlyOwnerListens(c.writer.owner, s.players, s.connected) then Packets(back) else [];
    assert Falling(c, s') == Falling(c, s);
  }

  /** Steps that move nothing between the owner and the server. */
  lemma Unmoved(c: Config, s: System, s': System)
    requires Wellformed(s) && Wellformed(s') && c.writer.OwnerWrites?
    requires c.writer.owner in s.connected && c.writer.owner in s'.connected && s'.connected[0] == s.connected[0]
    requires s'.table == s.table && s'.queue == s.queue && s'.players == s.players && Rising(s') == Rising(s)
    requires s'.replica[c.writer.owner] == s.replica[c.writer.owner]
      && s'.down[c.writer.owner] == s.down[c.writer.owner]
    ensures OwnerEnd(c, s') == OwnerEnd(c, s) && ServerEnd(c, s') == ServerEnd(c, s)
  {
    hide Replay, RelayAll, Packets;
    assert Echo(c, s', s'.players, s'.connected) == Echo(c, s, s.players, s.connected);
  }

  lemma AfterDeliver(c: Config, s: System, p: Peer)
    requires Inv(c, s) && Possible(c, s, Deliver(p)) && c.writer.OwnerWrites?
    ensures var s' := Step(c, s, Deliver(p));
      Wellformed(s') && OwnerEnd(c, s') == OwnerEnd(c, s) && ServerEnd(c, s') == ServerEnd(c, s)
  {
    var s' := Step(c, s, Deliver(p));
    assert Rising(s') == Rising(s) && Echo(c, s', s.players, s.connected) == Echo(c, s, s.players, s.connected);
    if p == c.writer.owner {
      assert Falling(c, s)[0] == s.down[p][0] && Falling(c, s)[1..] == Falling(c, s');
    } else {
      assert Falling(c, s') == Falling(c, s);
    }
  }

  /** The steps that only move packets along. */
  predicate Moves(e: Event) {
    e.OwnerFlush? || e.Receive? || e.Flush? || e.Deliver?
  }

  /** They do not change how either side ends. */
  lemma MovesKeepEnds(c: Config, s: System, e: Event)
    requires Inv(c, s) && Possible(c, s, e) && c.writer.OwnerWrites? && (Moves(e) || e.Connect?)
    ensures var s' := Step(c, s, e);
      Inv(c, s') && OwnerEnd(c, s') == OwnerEnd(c, s) && ServerEnd(c, s') == ServerEnd(c, s)
  {
    StepKeepsInv(c, s, e);
    var s' := Step(c, s, e);
    hide OwnerEnd, ServerEnd, Converges, AllSized, TableSized, FlushSends, SentTo, Handle, Relay;
    match e
    case OwnerFlush =>
      assert Rising(s') == Rising(s);
      Unmoved(c, s, s');
    case Receive => AfterReceive(c, s, s');
    case Flush =>
      FlushMoves(c, s);
      AfterFlush(c, s, s');
    case Deliver(p) => AfterDeliver(c, s, p);
    case Connect(p, order) =>
      assert s'.connected[0] == s.connected[0] && Rising(s') == Rising(s);
      Unmoved(c, s, s');
  }

  /** Nothing is queued or on its way between a writing owner and the server. */
  predicate Quiet(c: Config, s: System)
    requires Wellformed(s) && c.writer.OwnerWrites? && c.writer.owner in s.connected
  {
    s.up == [] && s.ownerQueue == [] && s.queue == [] && s.down[c.writer.owner] == []
  }

  lemma QuietEnds(c: Config, s: System)
    requires Inv(c, s) && c.writer.OwnerWrites? && Quiet(c, s)
    ensures OwnerEnd(c, s) == s.replica[c.writer.owner] && ServerEnd(c, s) == s.table
    ensures forall players, connected :: Echo(c, s, players, connected) == []
  {
    assert Rising(s) == [];
    forall players, connected ensures Echo(c, s, players, connected) == [] {
      assert s.queue + RelayAll(c.blank, s.table, players, Some(c.writer.owner), []) == [];
    }
    assert Falling(c, s) == [];
  }

  /**
   * What settling means: however packets are moved along until nothing is left between a writing
   * owner and the server, each ends as foretold, so they hold the same iff they settled before.
   */
  lemma {:induction false} DrainIff(c: Config, s: System, events: seq<Event>, end: System)
    requires Inv(c, s) && c.writer.OwnerWrites? && RunsTo(c, s, events, end)
    requires forall i :: 0 <= i < |events| ==> Moves(events[i])
    ensures Inv(c, end)
    ensures Quiet(c, end) ==> end.replica[c.writer.owner] == OwnerEnd(c, s) && end.table == ServerEnd(c, s)
    ensures Quiet(c, end) ==> (end.replica[c.writer.owner] == end.table <==> Settles(c, s))
    decreases |events|
  {
    if events == [] {
      if Quiet(c, end) {
        QuietEnds(c, end);
      }
    } else {
      assert forall i :: 0 <= i < |events[1..]| ==> events[1..][i] == events[i + 1];
      MovesKeepEnds(c, s, events[0]);
      DrainIff(c, Step(c, s, events[0]), events[1..], end);
    }
  }

  /** And they can be, from every state. */
  lemma {:induction false} Drain(c: Config, s: System) returns (events: seq<Event>, end: System)
    requires Inv(c, s) && c.writer.OwnerWrites?
    ensures RunsTo(c, s, events, end) && forall i :: 0 <= i < |events| ==> Moves(events[i])
    ensures Inv(c, end) && Quiet(c, end)
    decreases |s.ownerQueue|, |s.up|, |s.queue|, |s.down[c.writer.owner]|
  {
    if Quiet(c, s) {
      return [], s;
    }
    var e := if s.ownerQueue != [] then OwnerFlush else if s.up != [] then Receive
      else if s.queue != [] then Flush else Deliver(c.writer.owner);
    StepKeepsInv(c, s, e);
    var rest;
    rest, end := Drain(c, Step(c, s, e));
    events := [e] + rest;
    assert events[1..] == rest;
  }

  // ---------------------------------------------------------------- writes, joins and leaves

  /** Nothing the owner is about to be handed overrides what it writes, or else all of it comes back later. */
  predicate WriteKept(c: Config, s: System, change: Change)
    requires Wellformed(s) && c.writer.OwnerWrites? && c.writer.owner in s.connected
  {
    var own := s.replica[c.writer.owner];
    || (OnlyOwnerListens(c.writer.owner, s.players, s.connected) && |s.players| > 1)
    || forall k :: Touches(Emit(own, change), k) ==> Undisturbed(c.blank, own, change, Falling(c, s), k)
  }

  /**
   * Peers come or go, and a writing owner is given `given`: key by key, what will come back to
   * it from then on does the same as what would have.
   */
  predicate EchoKept(c: Config, s: System, given: seq<Packet>, players: seq<Peer>, connected: seq<Peer>)
    requires Wellformed(s) && c.writer.OwnerWrites? && c.writer.owner in s.connected
  {
    var held := Outstanding(c, s, c.writer.owner);
    var was, will := Echo(c, s, s.players, s.connected), given + Echo(c, s, players, connected);
    forall k :: Touches(was, k) || Touches(will, k) ==>
      CellReplay(c.blank, k, Lookup(held, k), was) == CellReplay(c.blank, k, Lookup(held, k), will)
  }

  /** The steps that leave a writing owner and the server settling, each decided on the state before it. */
  predicate Safe(c: Config, s: System, e: Event)
    requires Inv(c, s) && c.writer.OwnerWrites? && Possible(c, s, e)
  {
    match e
    case Write(change) => WriteKept(c, s, change)
    case Join(p, order) =>
      EchoKept(c, s, if IsWriter(c, p) then Dump(s.table, order) else [], s.players + [p], s.connected)
    case Leave(i) => EchoKept(c, s, [], Without(s.players, i), s.connected)
    case Disconnect(p) => EchoKept(c, s, [], WithoutPeer(s.players, p), WithoutPeer(s.connected, p))
    case _ => true
  }

  /** What a write adds to what is coming back. */
  lemma FallingAfterWrite(c: Config, s: System, change: Change)
    requires Inv(c, s) && c.writer.OwnerWrites? && Possible(c, s, Write(change))
    ensures var s' := Step(c, s, Write(change));
      var e := Emit(s.replica[c.writer.owner], change);
      var met := Replay(c.blank, s.table, Rising(s));
      && Wellformed(s') && Rising(s') == Rising(s) + e
      && Falling(c, s') == Falling(c, s) +
        if OnlyOwnerListens(c.writer.owner, s.players, s.connected) then
          Packets(RelayAll(c.blank, met, s.players, Some(c.writer.owner), e))
        else []
  {
    hide Emit, Apply, Relay, RelayAll, Replay, OnlyOwnerListens, Converges, ChangeOk, AllSized, TableSized, QueueAgrees;
    var s' := Step(c, s, Write(change));
    var e, rising := Emit(s.replica[c.writer.owner], change), Rising(s);
    var owner := Some(c.writer.owner);
    assert Rising(s') == rising + e;
    RelayAllConcat(c.blank, s.table, s.players, owner, rising, e);
    var now := RelayAll(c.blank, s.table, s.players, owner, rising);
    var back := RelayAll(c.blank, Replay(c.blank, s.table, rising), s.players, owner, e);
    assert s.queue + (now + back) == (s.queue + now) + back;
    PacketsConcat(s.queue + now, back);
    assert s'.down == s.down && s'.queue == s.queue;
  }

  lemma WriteSettlesIff(c: Config, s: System, change: Change)
    requires Inv(c, s) && c.writer.OwnerWrites? && Settles(c, s) && Possible(c, s, Write(change))
    ensures Inv(c, Step(c, s, Write(change)))
    ensures Settles(c, Step(c, s, Write(change))) <==> WriteKept(c, s, change)
  {
    StepKeepsInv(c, s, Write(change));
    var s' := Step(c, s, Write(change));
    var own := s.replica[c.writer.owner];
    var e, falling := Emit(own, change), Falling(c, s);
    var met := Replay(c.blank, s.table, Rising(s));
    assert s'.replica[c.writer.owner] == Apply(own, change) && s'.table == s.table && s'.connected == s.connected;
    FallingAfterWrite(c, s, change);
    ReplayConcat(c.blank, s.table, Rising(s), e);
    assert Settles(c, s') <==> Replay(c.blank, Apply(own, change), Falling(c, s')) == Replay(c.blank, met, e);
    if OnlyOwnerListens(c.writer.owner, s.players, s.connected) && |s.players| > 1 {
      hide Emit, Apply, Relay, RelayAll, Replay, Step, Undisturbed, Falling;
      EchoRepairs(c.blank, own, change, falling, s.players, Some(c.writer.owner));
    } else {
      hide Emit, Apply, Relay, RelayAll, Replay, Step, Undisturbed, Falling;
      if |s.players| <= 1 {
        NothingRelayed(c.blank, met, s.players, Some(c.writer.owner), e);
      }
      assert Falling(c, s') == falling;
      CrossingIff(c.blank, own, change, falling);
    }
  }

  /** Peers come or go. */
  lemma MembersSettleIff(c: Config, s: System, s': System, given: seq<Packet>)
    requires Inv(c, s) && c.writer.OwnerWrites? && Settles(c, s) && Wellformed(s') && c.writer.owner in s'.connected
    requires s'.table == s.table && s'.queue == s.queue && s'.up == s.up && s'.ownerQueue == s.ownerQueue
    requires s'.replica[c.writer.owner] == s.replica[c.writer.owner]
    requires s'.down[c.writer.owner] == s.down[c.writer.owner] + given
    ensures Settles(c, s') <==> EchoKept(c, s, given, s'.players, s'.connected)
  {
    var own, down := s.replica[c.writer.owner], s.down[c.writer.owner];
    var was, will := Echo(c, s, s.players, s.connected), given + Echo(c, s, s'.players, s'.connected);
    assert Echo(c, s', s'.players, s'.connected) == Echo(c, s, s'.players, s'.connected);
    assert Falling(c, s') == down + will;
    ReplayConcat(c.blank, own, down, was);
    ReplayConcat(c.blank, own, down, will);
    SameEffectIff(c.blank, Outstanding(c, s, c.writer.owner), was, will);
  }

  lemma MembersStep(c: Config, s: System, e: Event)
    requires Inv(c, s) && c.writer.OwnerWrites? && Settles(c, s) && Possible(c, s, e)
    requires e.Join? || e.Leave? || e.Disconnect?
    ensures Inv(c, Step(c, s, e))
    ensures Settles(c, Step(c, s, e)) <==> Safe(c, s, e)
  {
    StepKeepsInv(c, s, e);
    var s' := Step(c, s, e);
    hide Settles, EchoKept, Converges, AllSized, TableSized;
    var given := if e.Join? && IsWriter(c, e.peer) then Dump(s.table, e.order) else [];
    assert s'.down[c.writer.owner] == s.down[c.writer.owner] + given;
    MembersSettleIff(c, s, s', given);
  }

  /** Exactly the safe steps keep a writing owner and the server settling. */
  lemma StepSettlesIff(c: Config, s: System, e: Event)
    requires Inv(c, s) && c.writer.OwnerWrites? && Settles(c, s) && Possible(c, s, e)
    ensures Inv(c, Step(c, s, e))
    ensures Settles(c, Step(c, s, e)) <==> Safe(c, s, e)
  {
    if e.Write? {
      WriteSettlesIff(c, s, e.change);
    } else if Moves(e) || e.Connect? {
      MovesKeepEnds(c, s, e);
    } else {
      MembersStep(c, s, e);
    }
  }

  // ---------------------------------------------------------------- runs

  /** Every event of a run is safe where it happens. */
  predicate AllSafe(c: Config, s: System, events: seq<Event>)
    decreases |events|
  {
    events != [] ==>
      && Inv(c, s) && c.writer.OwnerWrites? && Possible(c, s, events[0]) && Safe(c, s, events[0])
      && AllSafe(c, Step(c, s, events[0]), events[1..])
  }

  lemma {:induction false} RunSettles(c: Config, s: System, events: seq<Event>, end: System)
    requires Inv(c, s) && c.writer.OwnerWrites? && Settles(c, s) && RunsTo(c, s, events, end) && AllSafe(c, s, events)
    ensures Inv(c, end) && Settles(c, end)
    decreases |events|
  {
    if events != [] {
      StepSettlesIff(c, s, events[0]);
      RunSettles(c, Step(c, s, events[0]), events[1..], end);
    }
  }

  /**
   * The writing owner's side: over every run of safe steps, its table and the server's are the
   * same when nothing is between them, and so is every clean player's once its channel is empty.
   */
  lemma OwnerConvergence(c: Config, s: System, events: seq<Event>, end: System)
    requires c.writer.OwnerWrites? && Init(c, s) && RunsTo(c, s, events, end) && AllSafe(c, s, events)
    ensures Inv(c, end) && Settles(c, end)
    ensures Quiet(c, end) ==>
      && end.replica[c.writer.owner] == end.table
      && forall p :: p in end.clean && end.down[p] == [] ==> end.replica[p] == end.replica[c.writer.owner]
  {
    InitInv(c, s);
    assert Quiet(c, s);
    QuietEnds(c, s);
    RunSettles(c, s, events, end);
    if Quiet(c, end) {
      QuietEnds(c, end);
      forall p | p in end.clean && end.down[p] == [] ensures end.replica[p] == end.table {
        assert Converges(c, end, p) && end.down[p] + Packets(end.queue) == [];
      }
    }
  }

  // ---------------------------------------------------------------- when a step is safe

  /** Everything is, between an owner and a server with nothing between them. */
  lemma QuietIsSafe(c: Config, s: System, e: Event)
    requires Inv(c, s) && c.writer.OwnerWrites? && Settles(c, s) && Quiet(c, s) && Possible(c, s, e)
    ensures Safe(c, s, e)
  {
    QuietEnds(c, s);
    assert Outstanding(c, s, c.writer.owner) == s.table;
    match e
    case Write(change) =>
      assert Falling(c, s) == [];
    case Join(p, order) =>
      var given := if IsWriter(c, p) then Dump(s.table, order) else [];
      assert given + [] == given;
      forall k | Touches(given, k)
        ensures CellReplay(c.blank, k, Lookup(s.table, k), given) == Lookup(s.table, k)
      {
        DumpCell(c.blank, s.table, order, k, Lookup(s.table, k));
      }
    case _ =>
  }

  /** So is a write of keys that nothing on its way to the owner is about. */
  lemma UntouchedWriteIsSafe(c: Config, s: System, change: Change)
    requires Inv(c, s) && c.writer.OwnerWrites? && Possible(c, s, Write(change))
    requires forall k :: Touches(Emit(s.replica[c.writer.owner], change), k) ==> !Touches(Falling(c, s), k)
    ensures Safe(c, s, Write(change))
  {
    var own := s.replica[c.writer.owner];
    forall k | Touches(Emit(own, change), k) ensures Undisturbed(c.blank, own, change, Falling(c, s), k) {
      UntouchedIsConsistent(c.blank, Apply(own, change), Falling(c, s), k);
    }
  }

  /**
   * Where nothing comes back, a dump of its own list is harmless to a writing owner if and only
   * if the owner already has, or is about to have, every element the server has.
   */
  lemma OwnDumpIff(c: Config, s: System, order: seq<Key>)
    requires Inv(c, s) && c.writer.OwnerWrites? && Possible(c, s, Join(c.writer.owner, order))
    requires !OnlyOwnerListens(c.writer.owner, s.players, s.connected)
    ensures Safe(c, s, Join(c.writer.owner, order))
      <==> forall k :: k in s.table ==> Lookup(Outstanding(c, s, c.writer.owner), k) == Some(s.table[k])
  {
    var owner := c.writer.owner;
    var held, dump := Outstanding(c, s, owner), Dump(s.table, order);
    assert forall p :: p in s.players ==> p in s.players + [owner];
    assert Echo(c, s, s.players + [owner], s.connected) == [];
    assert dump + [] == dump;
    forall k
      ensures Touches(dump, k) <==> k in s.table
      ensures k in s.table ==> CellReplay(c.blank, k, Lookup(held, k), dump) == Some(s.table[k])
    {
      DumpCell(c.blank, s.table, order, k, Lookup(held, k));
      if k in s.table {
        var i :| 0 <= i < |order| && order[i] == k;
        assert dump[i].key == k;
      }
    }
  }

  /** Where things come back, it is harmless always: from then on the echo mends what the dump undid. */
  lemma EchoMendsOwnDump(c: Config, s: System, order: seq<Key>)
    requires Inv(c, s) && c.writer.OwnerWrites? && Settles(c, s) && QueueAgrees(c, s)
    requires Possible(c, s, Join(c.writer.owner, order))
    requires OnlyOwnerListens(c.writer.owner, s.players, s.connected)
    ensures Safe(c, s, Join(c.writer.owner, order))
  {
    var owner, more := c.writer.owner, s.players + [c.writer.owner];
    var held, dump := Outstanding(c, s, owner), Dump(s.table, order);
    var was, will := Echo(c, s, s.players, s.connected), Echo(c, s, more, s.connected);
    var end := ServerEnd(c, s);
    assert owner in more && OnlyOwnerListens(owner, more, s.connected);
    EchoOnTable(c, s, more);
    EchoOnEnd(c, s, more);
    ReplayConcat(c.blank, s.replica[owner], s.down[owner], was);
    assert Replay(c.blank, held, was) == end;
    assert EchoKept(c, s, dump, more, s.connected) by {
      forall k
        ensures CellReplay(c.blank, k, Lookup(held, k), was) == CellReplay(c.blank, k, Lookup(held, k), dump + will)
      {
        CellConcat(c.blank, k, Lookup(held, k), dump, will);
        DumpCell(c.blank, s.table, order, k, Lookup(held, k));
        ReplayIsPointwise(c.blank, held, was, k);
        ReplayIsPointwise(c.blank, s.table, will, k);
        ReplayIsPointwise(c.blank, held, will, k);
      }
    }
  }

  /** Coming back to the server's own table, an echo would do what is rising. */
  lemma EchoOnTable(c: Config, s: System, players: seq<Peer>)
    requires Inv(c, s) && c.writer.OwnerWrites? && QueueAgrees(c, s)
    requires OnlyOwnerListens(c.writer.owner, players, s.connected) && |players| > 1
    ensures Replay(c.blank, s.table, Echo(c, s, players, s.connected)) == ServerEnd(c, s)
  {
    var back := RelayAll(c.blank, s.table, players, Some(c.writer.owner), Rising(s));
    PacketsConcat(s.queue, back);
    ReplayConcat(c.blank, s.table, Packets(s.queue), Packets(back));
    RelayAllEquivalent(c.blank, s.table, players, Some(c.writer.owner), Rising(s));
  }

  /** And coming back to the owner, whether it already came back to it before or not. */
  lemma EchoOnEnd(c: Config, s: System, more: seq<Peer>)
    requires Inv(c, s) && c.writer.OwnerWrites? && Settles(c, s)
    requires OnlyOwnerListens(c.writer.owner, s.players, s.connected)
    requires OnlyOwnerListens(c.writer.owner, more, s.connected) && |more| > 1
    ensures Replay(c.blank, Outstanding(c, s, c.writer.owner), Echo(c, s, more, s.connected)) == ServerEnd(c, s)
  {
    var owner, held := Some(c.writer.owner), Outstanding(c, s, c.writer.owner);
    var was, queue := Echo(c, s, s.players, s.connected), Packets(s.queue);
    var back := RelayAll(c.blank, s.table, more, owner, Rising(s));
    ReplayConcat(c.blank, s.replica[c.writer.owner], s.down[c.writer.owner], was);
    if |s.players| > 1 {
      RelayAllSame(c.blank, s.table, s.players, more, owner, Rising(s));
    } else {
      NothingRelayed(c.blank, s.table, s.players, owner, Rising(s));
      assert s.queue + [] == s.queue;
      PacketsConcat(s.queue, back);
      ReplayConcat(c.blank, held, queue, Packets(back));
      RelayAllEquivalent(c.blank, s.table, more, owner, Rising(s));
      RelayedIsSized(c.blank, s.table, more, owner, Rising(s));
      ReplayIdempotent(c.blank, s.table, Packets(back));
    }
  }

  /** Building an object for another peer ends an echo: harmless iff the echo would have changed nothing. */
  lemma OtherJoinsIff(c: Config, s: System, p: Peer, order: seq<Key>)
    requires Inv(c, s) && c.writer.OwnerWrites? && !IsWriter(c, p) && Possible(c, s, Join(p, order))
    ensures Safe(c, s, Join(p, order))
      <==> Consistent(c.blank, Outstanding(c, s, c.writer.owner), Echo(c, s, s.players, s.connected))
  {
    var was := Echo(c, s, s.players, s.connected);
    assert p in s.players + [p];
    assert Echo(c, s, s.players + [p], s.connected) == [];
    ConsistentIff(c.blank, Outstanding(c, s, c.writer.owner), was);
  }

  function PlayersLeft(s: System, e: Event): seq<Peer>
    requires e.Disconnect? || (e.Leave? && |s.players| > e.index)
  {
    if e.Leave? then Without(s.players, e.index) else WithoutPeer(s.players, e.peer)
  }

  function ConnectedLeft(s: System, e: Event): seq<Peer> {
    if e.Disconnect? then WithoutPeer(s.connected, e.peer) else s.connected
  }

  /** The last other peer's going starts one: harmless iff it will change nothing. */
  lemma OtherLeavesIff(c: Config, s: System, e: Event)
    requires Inv(c, s) && c.writer.OwnerWrites? && (e.Leave? || e.Disconnect?) && Possible(c, s, e)
    requires !OnlyOwnerListens(c.writer.owner, s.players, s.connected)
    ensures Safe(c, s, e)
      <==> Consistent(c.blank, Outstanding(c, s, c.writer.owner), Echo(c, s, PlayersLeft(s, e), ConnectedLeft(s, e)))
  {
    var will := Echo(c, s, PlayersLeft(s, e), ConnectedLeft(s, e));
    assert [] + will == will;
    ConsistentIff(c.blank, Outstanding(c, s, c.writer.owner), will);
  }

  lemma {:induction false} WithoutAbsent(players: seq<Peer>, p: Peer)
    requires p !in players
    ensures WithoutPeer(players, p) == players
  {
    if players != [] {
      WithoutAbsent(players[1..], p);
    }
  }

  lemma StillListens(c: Config, s: System, e: Event)
    requires Inv(c, s) && c.writer.OwnerWrites? && (e.Leave? || e.Disconnect?) && Possible(c, s, e)
    requires OnlyOwnerListens(c.writer.owner, s.players, s.connected)
    ensures OnlyOwnerListens(c.writer.owner, PlayersLeft(s, e), ConnectedLeft(s, e))
    ensures |PlayersLeft(s, e)| <= |s.players|
  {
    if e.Disconnect? {
      WithoutAbsent(s.players, e.peer);
      assert WithoutPeer(s.connected, e.peer) == [s.connected[0]] + WithoutPeer(s.connected[1..], e.peer);
    } else {
      assert forall q :: q in Without(s.players, e.index) ==> q in s.players;
    }
  }

  /**
   * Among echoes, a going can only take the owner's second object, and with it the relaying of
   * what is rising: harmless iff that would have changed nothing after what is queued already.
   */
  lemma OwnObjectLeavesIff(c: Config, s: System, e: Event)
    requires Inv(c, s) && c.writer.OwnerWrites? && (e.Leave? || e.Disconnect?) && Possible(c, s, e)
    requires OnlyOwnerListens(c.writer.owner, s.players, s.connected)
    ensures var held := Replay(c.blank, Outstanding(c, s, c.writer.owner), Packets(s.queue));
      var back := Packets(RelayAll(c.blank, s.table, s.players, Some(c.writer.owner), Rising(s)));
      Safe(c, s, e) <==> |PlayersLeft(s, e)| > 1 || Consistent(c.blank, held, back)
  {
    var owner, left, held := Some(c.writer.owner), PlayersLeft(s, e), Outstanding(c, s, c.writer.owner);
    var now := RelayAll(c.blank, s.table, s.players, owner, Rising(s));
    var after := RelayAll(c.blank, s.table, left, owner, Rising(s));
    var was, will := Echo(c, s, s.players, s.connected), Echo(c, s, left, ConnectedLeft(s, e));
    assert [] + will == will;
    assert Safe(c, s, e) <==> EchoKept(c, s, [], left, ConnectedLeft(s, e));
    StillListens(c, s, e);
    if |left| > 1 {
      RelayAllSame(c.blank, s.table, s.players, left, owner, Rising(s));
    } else {
      NothingRelayed(c.blank, s.table, left, owner, Rising(s));
    }
    hide Inv, Possible, Safe, RelayAll, Replay, Touches, CellReplay, PlayersLeft, ConnectedLeft, OnlyOwnerListens;
    SameEffectIff(c.blank, held, was, will);
    PacketsConcat(s.queue, now);
    PacketsConcat(s.queue, after);
    ReplayConcat(c.blank, held, Packets(s.queue), Packets(now));
    ReplayConcat(c.blank, held, Packets(s.queue), Packets(after));
    if |left| <= 1 {
      assert s.queue + after == s.queue;
    }
  }
}
