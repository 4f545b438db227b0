/**
 * Runs the code can take after which two copies of a list differ with nothing left to be sent.
 * Each starts from empty lists and breaks one of the conditions under which copies are proved to
 * agree; for a key a dump cannot remove, so does every way of going on.
 */
module ListDivergence {
  import opened NetTypes
  import opened ListReplication
  import opened ListDelivery
  import opened ListProtocol
  import opened ListOwner

  // ---------------------------------------------------------------- stale keys

  /** A peer has, or will have, a key that the server has not and that nothing queued removes. */
  predicate Stale(c: Config, s: System, p: Peer, k: Key)
    requires Wellformed(s)
  {
    && p in s.connected && k !in s.table
    && k in Outstanding(c, s, p) && Remove(k) !in Packets(s.queue)
  }

  lemma {:induction false} SentIsQueued(queue: seq<Entry>, players: seq<Peer>, connected: seq<Peer>, p: Peer, m: Packet)
    requires m in SentTo(FlushSends(queue, players, connected), p)
    ensures m in Packets(queue)
    decreases |queue|
  {
    if queue != [] {
      var to := Recipients(Targets(players, queue[0].filter), connected);
      FlushHead(queue, players, connected, p);
      PacketsTail(queue);
      if m in SentTo(SendEach(queue[0].packet, to), p) {
        SentIsThePacket(queue[0].packet, to, p, m);
      } else {
        SentIsQueued(queue[1..], players, connected, p, m);
      }
    }
  }

  lemma {:induction false} SentIsThePacket(packet: Packet, peers: seq<Peer>, p: Peer, m: Packet)
    requires m in SentTo(SendEach(packet, peers), p)
    ensures m == packet
  {
    if peers != [] {
      assert SendEach(packet, peers)[1..] == SendEach(packet, peers[1..]);
      if m != packet {
        SentIsThePacket(packet, peers[1..], p, m);
      }
    }
  }

  /** A channel that is lengthened by no removal of a key does not lose it. */
  lemma StillOutstanding(c: Config, s: System, s': System, p: Peer, k: Key, more: seq<Packet>)
    requires Wellformed(s) && Wellformed(s') && p in s.connected && p in s'.connected
    requires s'.replica[p] == s.replica[p] && s'.down[p] == s.down[p] + more
    requires k in Outstanding(c, s, p) && Remove(k) !in more
    ensures k in Outstanding(c, s', p)
  {
    var held := Outstanding(c, s, p);
    ReplayConcat(c.blank, s.replica[p], s.down[p], more);
    ReplayIsPointwise(c.blank, held, more, k);
    SurvivesWithoutRemove(c.blank, k, Lookup(held, k), more);
  }

  /** The server does not create the key again, and the peer stays connected. */
  predicate LeavesStale(e: Event, p: Peer, k: Key) {
    !(e.Write? && e.change.Create? && e.change.key == k) && e != Disconnect(p)
  }

  lemma StaleStep(c: Config, s: System, e: Event, p: Peer, k: Key)
    requires Inv(c, s) && c.writer.ServerWrites? && Possible(c, s, e)
    requires Stale(c, s, p, k) && LeavesStale(e, p, k)
    ensures Inv(c, Step(c, s, e)) && Stale(c, Step(c, s, e), p, k)
  {
    StepKeepsInv(c, s, e);
    var s' := Step(c, s, e);
    hide Inv;
    match e
    case Write(change) =>
      var log := Emit(s.table, change);
      assert Packets(s'.queue) == Packets(s.queue) + log;
      assert Remove(k) !in log;
    case Flush =>
      var sent := SentTo(FlushSends(s.queue, s.players, s.connected), p);
      if Remove(k) in sent {
        SentIsQueued(s.queue, s.players, s.connected, p, Remove(k));
      }
      StillOutstanding(c, s, s', p, k, sent);
    case Join(q, order) =>
      StillOutstanding(c, s, s', p, k, if q == p then Dump(s.table, order) else []);
    case _ =>
  }

  /**
   * A stale key is never got rid of: over every run in which the server does not create it again
   * and the peer stays connected, it stays stale, whatever else is written, sent or dumped.
   */
  lemma {:induction false} StaleKeyStays(c: Config, s: System, events: seq<Event>, end: System, p: Peer, k: Key)
    requires Inv(c, s) && c.writer.ServerWrites? && RunsTo(c, s, events, end)
    requires Stale(c, s, p, k) && forall i :: 0 <= i < |events| ==> LeavesStale(events[i], p, k)
    ensures Inv(c, end) && Stale(c, end, p, k) && !Converges(c, end, p)
    decreases |events|
  {
    if events == [] {
      var held, queue := Outstanding(c, end, p), Packets(end.queue);
      ReplayConcat(c.blank, end.replica[p], end.down[p], queue);
      ReplayIsPointwise(c.blank, held, queue, k);
      SurvivesWithoutRemove(c.blank, k, Lookup(held, k), queue);
    } else {
      assert LeavesStale(events[0], p, k);
      assert forall i :: 0 <= i < |events[1..]| ==> events[1..][i] == events[i + 1];
      StaleStep(c, s, events[0], p, k);
      StaleKeyStays(c, Step(c, s, events[0]), events[1..], end, p, k);
    }
  }

  // ---------------------------------------------------------------- single steps of a run

  ghost predicate Reaches(c: Config, start: System, end: System) {
    Inv(c, end) && exists events :: RunsTo(c, start, events, end)
  }

  lemma {:induction false} RunsFurther(c: Config, s: System, events: seq<Event>, mid: System, e: Event)
    requires RunsTo(c, s, events, mid) && Wellformed(mid) && Possible(c, mid, e)
    ensures RunsTo(c, s, events + [e], Step(c, mid, e))
    decreases |events|
  {
    if events == [] {
      assert ([e])[1..] == [];
    } else {
      assert (events + [e])[1..] == events[1..] + [e];
      RunsFurther(c, Step(c, s, events[0]), events[1..], mid, e);
    }
  }

  lemma Further(c: Config, start: System, s: System, e: Event)
    requires Reaches(c, start, s) && Possible(c, s, e)
    ensures Reaches(c, start, Step(c, s, e))
  {
    StepKeepsInv(c, s, e);
    var events :| RunsTo(c, start, events, s);
    RunsFurther(c, start, events, s, e);
  }

  lemma Begins(c: Config, start: System)
    requires Init(c, start)
    ensures Reaches(c, start, start)
  {
    InitInv(c, start);
    assert RunsTo(c, start, [], start);
  }

  // Each step a run below takes, with the fields it changes.

  lemma OwnerChanges(c: Config, start: System, s: System, change: Change, table: Table, packet: Packet)
    requires c.writer == OwnerWrites(1) && Reaches(c, start, s)
    requires 1 in s.connected && 1 in s.replica && s.ownerQueue == [] && ChangeOk(c.blank, s.replica[1], change)
    requires Apply(s.replica[1], change) == table && Emit(s.replica[1], change) == [packet]
    ensures Reaches(c, start, s.(replica := s.replica[1 := table], ownerQueue := [packet]))
  {
    hide Apply, Emit, ChangeOk;
    Further(c, start, s, Write(change));
    assert s.ownerQueue + [packet] == [packet];
  }

  lemma OwnerSends(c: Config, start: System, s: System, packet: Packet)
    requires c.writer == OwnerWrites(1) && Reaches(c, start, s) && s.up == [] && s.ownerQueue == [packet]
    ensures Reaches(c, start, s.(up := [packet], ownerQueue := []))
  {
    Further(c, start, s, OwnerFlush);
    assert s.up + s.ownerQueue == [packet];
  }

  lemma ServerTakes(c: Config, start: System, s: System, packet: Packet, table: Table, queue: seq<Entry>)
    requires c.writer == OwnerWrites(1) && Reaches(c, start, s) && s.up == [packet]
    requires Sized(c.blank, packet) && (packet.Update? ==> packet.key in s.table)
    requires Handle(c.blank, s.table, packet) == table
    requires queue == s.queue + if |s.players| > 1 then [Entry(packet, Some(1))] else []
    ensures Reaches(c, start, s.(up := [], table := table, queue := queue))
  {
    hide Handle;
    Further(c, start, s, Receive);
    assert s.up[1..] == [];
  }

  lemma OneLeaves(c: Config, start: System, s: System, i: nat, left: seq<Peer>)
    requires c.writer == OwnerWrites(1) && Reaches(c, start, s)
    requires i < |s.players| && Without(s.players, i) == left && 1 in left
    requires forall p :: p in s.clean ==> p !in left
    ensures Reaches(c, start, s.(players := left, clean := {}))
  {
    Further(c, start, s, Leave(i));
    assert Step(c, s, Leave(i)).clean == {};
  }

  /** A list of one element is dumped to a peer whose join is not a clean one. */
  lemma OneJoins(
    c: Config, start: System, s: System, p: Peer, k: Key, value: Element, players: seq<Peer>, channel: seq<Packet>)
    requires c.writer == OwnerWrites(1) && Reaches(c, start, s)
    requires p in s.connected && p in s.down && s.table == map[k := value] && s.clean == {}
    requires p == 1 || !QueueAgrees(c, s)
    requires players == s.players + [p] && channel == s.down[p] + [Add(k, value)]
    ensures Reaches(c, start, s.(players := players, down := s.down[p := channel]))
  {
    assert Enumerates([k], s.table.Keys);
    assert Dump(s.table, [k]) == [Add(k, value)];
    hide QueueAgrees;
    Further(c, start, s, Join(p, [k]));
    assert {} - {p} == s.clean;
  }

  // ---------------------------------------------------------------- three runs of a writing owner

  /** Peer 1 writes. Under some key it creates one value and then sets another of the same size. */
  datatype Story = Story(blank: Element, k: Key, v: Element, w: Element) {
    predicate Told() {
      |v| == |w| == |blank| && v != w
    }

    function Cfg(): Config {
      Config(blank, OwnerWrites(1))
    }

    function First(): Packet {
      Add(k, v)
    }

    function Second(): Packet {
      Update(k, w)
    }

    function One(): Table {
      map[k := v]
    }

    function Two(): Table {
      map[k := w]
    }
  }

  /** What the story's packets do to the tables in it. */
  predicate Facts(y: Story, one: Table, two: Table, first: Packet, second: Packet) {
    && one == y.One() && two == y.Two() && first == y.First() && second == y.Second()
    && Apply(map[], Create(y.k, y.v)) == one && Emit(map[], Create(y.k, y.v)) == [first]
    && Apply(one, Change.Set(y.k, y.w)) == two && Emit(one, Change.Set(y.k, y.w)) == [second]
    && ChangeOk(y.blank, map[], Create(y.k, y.v)) && ChangeOk(y.blank, one, Change.Set(y.k, y.w))
    && Handle(y.blank, map[], first) == one && Handle(y.blank, one, second) == two
    && Handle(y.blank, two, first) == one && Handle(y.blank, map[], second) == map[]
    && Handle(y.blank, map[], Add(y.k, y.w)) == two
    && Sized(y.blank, first) && Sized(y.blank, second) && !first.Update? && second.key in one && one != two
  }

  lemma Told(y: Story)
    requires y.Told()
    ensures Facts(y, y.One(), y.Two(), y.First(), y.Second())
  {
    assert y.One()[y.k] != y.Two()[y.k];
  }

  /** The owner creates a key and the server takes the packet. */
  lemma CreateSteps(c: Config, start: System, change: Change, one: Table, first: Packet, queue: seq<Entry>)
    requires c.writer == OwnerWrites(1) && Reaches(c, start, start)
    requires 1 in start.connected && 1 in start.replica && start.replica[1] == start.table == map[]
    requires start.up == start.ownerQueue == [] && start.queue == []
    requires ChangeOk(c.blank, map[], change) && Apply(map[], change) == one && Emit(map[], change) == [first]
    requires Handle(c.blank, map[], first) == one && Sized(c.blank, first) && !first.Update?
    requires queue == if |start.players| > 1 then [Entry(first, Some(1))] else []
    ensures Reaches(c, start, start.(table := one, replica := start.replica[1 := one], queue := queue))
  {
    hide *;
    OwnerChanges(c, start, start, change, one, first);
    var s1 := start.(replica := start.replica[1 := one], ownerQueue := [first]);
    OwnerSends(c, start, s1, first);
    var s2 := s1.(up := [first], ownerQueue := []);
    ServerTakes(c, start, s2, first, one, queue);
  }

  lemma Created(y: Story, start: System, one: Table, two: Table, first: Packet, second: Packet, queue: seq<Entry>)
    requires Facts(y, one, two, first, second) && Init(y.Cfg(), start)
    requires queue == if |start.players| > 1 then [Entry(first, Some(1))] else []
    ensures 1 in start.replica && 1 in start.connected && start.ownerQueue == []
    ensures Reaches(y.Cfg(), start, start.(table := one, replica := start.replica[1 := one], queue := queue))
  {
    Begins(y.Cfg(), start);
    hide Reaches, Handle, Apply, Emit, ChangeOk, Sized;
    CreateSteps(y.Cfg(), start, Create(y.k, y.v), one, first, queue);
  }

  /** Owner 1 has two objects and is the only peer, so all it sends comes back to it. */
  const ALONE := System(map[], [], [1, 1], [1], map[1 := []], map[1 := map[]], {}, [], [])

  /** Peer 2 connected first and has no object, so that nothing is relayed and nothing comes back. */
  const SECOND := System(map[], [], [1], [2, 1], map[1 := [], 2 := []], map[1 := map[], 2 := map[]], {}, [], [])

  /** The same with an object for peer 2. */
  const BOTH := System(map[], [], [1, 2], [2, 1], map[1 := [], 2 := []], map[1 := map[], 2 := map[]], {2}, [], [])

  lemma Starts(y: Story)
    ensures Init(y.Cfg(), ALONE) && Init(y.Cfg(), SECOND) && Init(y.Cfg(), BOTH)
  {
  }

  /** The owner has set the key again, and the server does not know yet. */
  lemma SetAgain(y: Story, start: System, one: Table, two: Table, first: Packet, second: Packet, queue: seq<Entry>)
    returns (s: System)
    requires Facts(y, one, two, first, second) && Init(y.Cfg(), start)
    requires queue == if |start.players| > 1 then [Entry(first, Some(1))] else []
    ensures 1 in start.replica && Reaches(y.Cfg(), start, s)
    ensures s == start.(table := one, replica := start.replica[1 := two], queue := queue, ownerQueue := [second])
  {
    Created(y, start, one, two, first, second, queue);
    hide Reaches, Handle, Apply, Emit, ChangeOk, Init, Sized;
    var s0 := start.(table := one, replica := start.replica[1 := one], queue := queue);
    OwnerChanges(y.Cfg(), start, s0, Change.Set(y.k, y.w), two, second);
    s := s0.(replica := s0.replica[1 := two], ownerQueue := [second]);
    assert s.replica == start.replica[1 := two];
  }

  /** The packets between owner and server may simply run out, with no further write. */
  lemma RunsOut(c: Config, start: System, s: System) returns (end: System)
    requires c.writer == OwnerWrites(1) && Reaches(c, start, s)
    ensures Inv(c, s) && Reaches(c, start, end) && Inv(c, end) && Quiet(c, end)
    ensures end.replica[1] == OwnerEnd(c, s) && end.table == ServerEnd(c, s)
  {
    var moves;
    moves, end := Drain(c, s);
    DrainIff(c, s, moves, end);
    var events :| RunsTo(c, start, events, s);
    RunsOn(c, start, events, s, moves, end);
  }

  lemma {:induction false} RunsOn(
    c: Config, start: System, events: seq<Event>, mid: System, more: seq<Event>, end: System)
    requires RunsTo(c, start, events, mid) && RunsTo(c, mid, more, end)
    ensures RunsTo(c, start, events + more, end)
    decreases |events|
  {
    if events == [] {
      assert events + more == more;
    } else {
      assert (events + more)[0] == events[0] && (events + more)[1..] == events[1..] + more;
      RunsOn(c, Step(c, start, events[0]), events[1..], mid, more, end);
    }
  }

  lemma ReplayOne(blank: Element, t: Table, packet: Packet)
    ensures Replay(blank, t, [packet]) == Handle(blank, t, packet)
  {
    hide Handle;
    assert [packet][1..] == [];
  }

  /** One packet is falling and one rising, and each puts the other side's table back. */
  lemma Crossed(c: Config, s: System, one: Table, two: Table, first: Packet, second: Packet)
    requires c.writer == OwnerWrites(1) && Wellformed(s) && 1 in s.connected
    requires Falling(c, s) == [first] && Rising(s) == [second] && s.replica[1] == two && s.table == one
    requires Handle(c.blank, two, first) == one && Handle(c.blank, one, second) == two
    ensures OwnerEnd(c, s) == one && ServerEnd(c, s) == two
  {
    hide Handle, Falling, Rising;
    ReplayOne(c.blank, two, first);
    ReplayOne(c.blank, one, second);
  }

  lemma FallsAlone(c: Config, s: System, first: Packet, second: Packet)
    requires c.writer == OwnerWrites(1) && Wellformed(s) && s.players == [1] && s.connected == [1]
    requires s.down[1] == [] && s.queue == [Entry(first, Some(1))] && s.up == [] && s.ownerQueue == [second]
    ensures Falling(c, s) == [first] && Rising(s) == [second]
  {
    NothingRelayed(c.blank, s.table, [1], Some(1), Rising(s));
    assert s.queue + [] == s.queue && Packets(s.queue) == [first];
    assert [] + [first] == [first];
  }

  /**
   * An echo, cut off: the owner sets the key again while its first packet is about to come back,
   * and loses an object, so that the second will not. It ends with the old value and the server
   * with the new one, and nothing is left between them.
   */
  lemma EchoUndoesOwner(y: Story) returns (end: System)
    requires y.Told()
    ensures Init(y.Cfg(), ALONE) && Reaches(y.Cfg(), ALONE, end) && Inv(y.Cfg(), end) && Quiet(y.Cfg(), end)
    ensures end.replica[1] == y.One() && end.table == y.Two() && y.One() != y.Two()
  {
    var c, first, second := y.Cfg(), y.First(), y.Second();
    Starts(y);
    Told(y);
    assert Without([1, 1], 0) == [1];
    assert Handle(c.blank, y.Two(), first) == y.One() && Handle(c.blank, y.One(), second) == y.Two();
    var s := SetAgain(y, ALONE, y.One(), y.Two(), first, second, [Entry(first, Some(1))]);
    hide Init, Reaches, Facts, Handle, Without, Story.One, Story.Two, Story.First, Story.Second;
    OneLeaves(c, ALONE, s, 0, [1]);
    end := RunsOut(c, ALONE, s.(players := [1], clean := {}));
    hide Inv, Quiet;
    FallsAlone(c, s.(players := [1], clean := {}), first, second);
    Crossed(c, s.(players := [1], clean := {}), y.One(), y.Two(), first, second);
  }

  lemma FallsDumped(c: Config, s: System, first: Packet, second: Packet)
    requires c.writer == OwnerWrites(1) && Wellformed(s) && s.connected == [2, 1]
    requires s.down[1] == [first] && s.up == [] && s.ownerQueue == [second]
    ensures Falling(c, s) == [first] && Rising(s) == [second]
  {
    assert Echo(c, s, s.players, s.connected) == [];
    assert [first] + [] == [first] && [] + [second] == [second];
  }

  /**
   * A dump of its own list: an object is built for the owner while its second packet is on its
   * way up. The owner ends with the old value and the server with the new one.
   */
  lemma OwnDumpUndoesOwner(y: Story) returns (end: System)
    requires y.Told()
    ensures Init(y.Cfg(), SECOND) && Reaches(y.Cfg(), SECOND, end) && Inv(y.Cfg(), end) && Quiet(y.Cfg(), end)
    ensures end.replica[1] == y.One() && end.table == y.Two() && y.One() != y.Two()
  {
    var c, first, second := y.Cfg(), y.First(), y.Second();
    Starts(y);
    Told(y);
    assert y.One() == map[y.k := y.v] && first == Add(y.k, y.v);
    assert Handle(c.blank, y.Two(), first) == y.One() && Handle(c.blank, y.One(), second) == y.Two();
    var s := SetAgain(y, SECOND, y.One(), y.Two(), first, second, []);
    hide Init, Reaches, Facts, Handle, Story.One, Story.Two, Story.First, Story.Second;
    OneJoins(c, SECOND, s, 1, y.k, y.v, [1, 1], [first]);
    end := RunsOut(c, SECOND, s.(players := [1, 1], down := s.down[1 := [first]]));
    hide Inv, Quiet;
    FallsDumped(c, s.(players := [1, 1], down := s.down[1 := [first]]), first, second);
    Crossed(c, s.(players := [1, 1], down := s.down[1 := [first]]), y.One(), y.Two(), first, second);
  }

  lemma Contradicted(c: Config, s: System, one: Table, two: Table, first: Packet)
    requires s.table == two && s.queue == [Entry(first, Some(1))] && Handle(c.blank, two, first) == one && one != two
    ensures !QueueAgrees(c, s)
  {
    hide Handle;
    ReplayOne(c.blank, two, first);
    assert Packets(s.queue) == [first];
  }

  /** The owner's second packet is applied without being relayed, with the first still queued. */
  lemma ReceiveUnrelayed(y: Story) returns (mid: System)
    requires y.Told()
    ensures Init(y.Cfg(), BOTH) && Reaches(y.Cfg(), BOTH, mid) && !QueueAgrees(y.Cfg(), mid)
    ensures mid == BOTH.(table := y.Two(), queue := [Entry(y.First(), Some(1))], players := [1],
      replica := BOTH.replica[1 := y.Two()], clean := {})
  {
    Starts(y);
    Told(y);
    var s := SetAgain(y, BOTH, y.One(), y.Two(), y.First(), y.Second(), [Entry(y.First(), Some(1))]);
    hide Init, Reaches, QueueAgrees;
    mid := UnrelayedSteps(y.Cfg(), y, y.One(), y.Two(), y.First(), y.Second(), BOTH, s);
    Contradicted(y.Cfg(), mid, y.One(), y.Two(), y.First());
  }

  lemma UnrelayedSteps(
    c: Config, y: Story, one: Table, two: Table, first: Packet, second: Packet, start: System, s: System)
    returns (mid: System)
    requires c == y.Cfg() && Facts(y, one, two, first, second) && Reaches(c, start, s)
    requires s.players == [1, 2] && s.clean == {2} && s.table == one && s.up == [] && s.ownerQueue == [second]
    requires s.queue == [Entry(first, Some(1))]
    ensures Reaches(c, start, mid) && mid == s.(table := two, players := [1], clean := {}, ownerQueue := [])
  {
    assert Without([1, 2], 1) == [1];
    assert c.writer == OwnerWrites(1) && c.blank == y.blank;
    hide Reaches, Handle, Apply, Emit, ChangeOk, Without, Story.Cfg;
    OneLeaves(c, start, s, 1, [1]);
    var s1 := s.(players := [1], clean := {});
    OwnerSends(c, start, s1, second);
    var s2 := s1.(up := [second], ownerQueue := []);
    ServerTakes(c, start, s2, second, two, [Entry(first, Some(1))]);
    mid := s2.(up := [], table := two, queue := [Entry(first, Some(1))]);
  }

  lemma BoundToOld(c: Config, s: System, one: Table, two: Table, first: Packet, newer: Packet)
    requires Wellformed(s) && 2 in s.connected && s.down[2] == [newer] && s.queue == [Entry(first, Some(1))]
    requires s.replica[2] == map[] && Handle(c.blank, map[], newer) == two && Handle(c.blank, two, first) == one
    ensures Bound(c, s, 2) == one
  {
    hide Handle;
    assert Packets(s.queue) == [first];
    assert [newer, first][1..] == [first];
    assert s.down[2] + Packets(s.queue) == [newer, first];
    ReplayOne(c.blank, two, first);
  }

  /** A newcomer is then dumped the new value and sent the old one after it, and keeps that. */
  lemma UnrelayedPacketLeavesOldValue(y: Story) returns (end: System)
    requires y.Told()
    ensures Init(y.Cfg(), BOTH) && Reaches(y.Cfg(), BOTH, end) && Inv(y.Cfg(), end) && 2 in end.players
    ensures end.queue == [] && end.down[2] == []
    ensures end.replica[2] == y.One() && end.table == y.Two() && y.One() != y.Two()
  {
    var c, first, newer := y.Cfg(), y.First(), Add(y.k, y.w);
    var mid := ReceiveUnrelayed(y);
    Told(y);
    assert y.Two() == map[y.k := y.w];
    assert Handle(c.blank, map[], newer) == y.Two() && Handle(c.blank, y.Two(), first) == y.One();
    hide Init, Reaches, QueueAgrees, Facts, Handle, Story.One, Story.Two, Story.First, Story.Second;
    OneJoins(c, BOTH, mid, 2, y.k, y.w, [1, 2], [newer]);
    end := PlayerRunsOut(c, BOTH, mid.(players := [1, 2], down := mid.down[2 := [newer]]), 2);
    hide Inv;
    BoundToOld(c, mid.(players := [1, 2], down := mid.down[2 := [newer]]), y.One(), y.Two(), first, newer);
  }

  lemma PlayerRunsOut(c: Config, start: System, s: System, p: Peer) returns (end: System)
    requires Reaches(c, start, s) && p in s.players && !IsWriter(c, p)
    ensures Inv(c, s) && Reaches(c, start, end) && Inv(c, end) && p in end.players && end.table == s.table
    ensures end.queue == [] && end.down[p] == [] && end.replica[p] == Bound(c, s, p)
  {
    var moves;
    moves, end := DrainPlayer(c, s, p);
    var events :| RunsTo(c, start, events, s);
    RunsOn(c, start, events, s, moves, end);
  }

  // ---------------------------------------------------------------- a run to a stale key

  /** Peer 1 is a player that converges. Peer 2 is not connected yet. */
  const WATCHED := System(map[], [], [1], [1], map[1 := []], map[1 := map[]], {1}, [], [])

  lemma DumpedToNewcomer(c: Config, k: Key, v: Element) returns (s: System)
    requires c.writer.ServerWrites? && |v| == |c.blank|
    ensures Init(c, WATCHED) && Reaches(c, WATCHED, s)
    ensures Wellformed(s) && s.table == map[k := v] && s.players == [1] && s.connected == [1, 2]
    ensures k in Outstanding(c, s, 2)
  {
    assert Init(c, WATCHED);
    Begins(c, WATCHED);
    hide Init, Reaches;
    Further(c, WATCHED, WATCHED, Write(Create(k, v)));
    var created := Step(c, WATCHED, Write(Create(k, v)));
    assert created.table == map[k := v] && created.players == [1] && created.connected == [1];
    assert created.down == WATCHED.down && created.replica == WATCHED.replica;
    assert Enumerates([k], created.table.Keys) && Dump(created.table, [k]) == [Add(k, v)];
    Reached(c, WATCHED, created);
    Further(c, WATCHED, created, Connect(2, [k]));
    s := Step(c, created, Connect(2, [k]));
    ReplayOne(c.blank, map[], Add(k, v));
  }

  /** A tick that does not reach a peer leaves it what it holds, and the queue empty. */
  lemma StaleAfterTick(c: Config, s: System, p: Peer, k: Key)
    requires Wellformed(s) && k !in s.table && p in s.connected && k in Outstanding(c, s, p)
    requires p !in s.players && s.connected[0] != p
    ensures Wellformed(Step(c, s, Flush)) && Stale(c, Step(c, s, Flush), p, k)
  {
    FlushStaysInside(s.queue, s.players, s.connected, p);
    hide FlushSends, SentTo;
    StillOutstanding(c, s, Step(c, s, Flush), p, k, []);
  }

  /** A key is dumped to peer 2 as it connects, and then removed before an object is built for it. */
  lemma ReachesStale(blank: Element, k: Key, v: Element) returns (s: System)
    requires |v| == |blank|
    ensures var c := Config(blank, ServerWrites);
      Init(c, WATCHED) && Reaches(c, WATCHED, s) && Wellformed(s) && Stale(c, s, 2, k)
  {
    var c := Config(blank, ServerWrites);
    var dumped := DumpedToNewcomer(c, k, v);
    Reached(c, WATCHED, dumped);
    hide Init, Reaches;
    Further(c, WATCHED, dumped, Write(Erase(k)));
    var erased := Step(c, dumped, Write(Erase(k)));
    assert k !in erased.table && erased.down == dumped.down && erased.replica == dumped.replica;
    assert erased.players == [1] && erased.connected == [1, 2];
    Reached(c, WATCHED, erased);
    Further(c, WATCHED, erased, Flush);
    s := Step(c, erased, Flush);
    StaleAfterTick(c, erased, 2, k);
  }

  lemma Reached(c: Config, start: System, end: System)
    requires Reaches(c, start, end)
    ensures Inv(c, end)
  {
  }
}
