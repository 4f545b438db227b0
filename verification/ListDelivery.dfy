/**
 * Who receives a queued list packet: the peers a delta is addressed to, the default peer used
 * when nobody is, and the packets a node queues again after applying a remote one.
 */
module ListDelivery {
  import opened NetTypes
  import opened ListReplication

  type Peer = nat

  /** A queued packet and the peer that must not have it sent back. */
  datatype Entry = Entry(packet: Packet, filter: Option<Peer>)

  datatype Send = Send(peer: Peer, packet: Packet)

  function Packets(queue: seq<Entry>): seq<Packet> {
    seq(|queue|, i requires 0 <= i < |queue| => queue[i].packet)
  }

  /** A log as it is pushed on a queue, every packet with the same filter. */
  function Queueing(log: seq<Packet>, filter: Option<Peer>): seq<Entry> {
    seq(|log|, i requires 0 <= i < |log| => Entry(log[i], filter))
  }

  /** SendDelta: every player except the filtered one, as often as it owns an object. */
  function Targets(players: seq<Peer>, filter: Option<Peer>): seq<Peer> {
    if players == [] then []
    else (if Some(players[0]) != filter then [players[0]] else []) + Targets(players[1..], filter)
  }

  /** AllocateDefaultPeer: a packet nobody was added to goes to the first connected peer. */
  function Recipients(targets: seq<Peer>, connected: seq<Peer>): seq<Peer> {
    if targets == [] && connected != [] then [connected[0]] else targets
  }

  function SendEach(packet: Packet, peers: seq<Peer>): seq<Send> {
    seq(|peers|, i requires 0 <= i < |peers| => Send(peers[i], packet))
  }

  /** UpdateListDelta: what flushing a queue puts on the wire. */
  function FlushSends(queue: seq<Entry>, players: seq<Peer>, connected: seq<Peer>): seq<Send> {
    if queue == [] then []
    else
      SendEach(queue[0].packet, Recipients(Targets(players, queue[0].filter), connected))
      + FlushSends(queue[1..], players, connected)
  }

  /** The packets among `sends` that reach one peer, in order. */
  function SentTo(sends: seq<Send>, p: Peer): seq<Packet> {
    if sends == [] then []
    else (if sends[0].peer == p then [sends[0].packet] else []) + SentTo(sends[1..], p)
  }

  /** The packets the list's own callbacks queue again once a remote packet has been handled. */
  function Relay(blank: Element, t: Table, players: seq<Peer>, owner: Option<Peer>, p: Packet): seq<Entry> {
    if |players| <= 1 then []
    else
      match p
      case Add(_, v) => if |v| == |blank| then [Entry(p, owner)] else []
      case Update(k, v) => if k in t && |v| == |blank| then [Entry(p, owner)] else []
      case Remove(_) => [Entry(p, owner)]
  }

  /** The same for packets handled one after another. */
  function RelayAll(blank: Element, t: Table, players: seq<Peer>, owner: Option<Peer>, log: seq<Packet>): seq<Entry>
    decreases |log|
  {
    if log == [] then []
    else Relay(blank, t, players, owner, log[0]) + RelayAll(blank, Handle(blank, t, log[0]), players, owner, log[1..])
  }

  // ---------------------------------------------------------------- addressing

  lemma {:induction false} TargetsAreTheOthers(players: seq<Peer>, filter: Option<Peer>)
    ensures forall p :: p in Targets(players, filter) <==> p in players && Some(p) != filter
    ensures Targets(players, filter) == [] <==> forall p :: p in players ==> Some(p) == filter
  {
    if players != [] {
      TargetsAreTheOthers(players[1..], filter);
      assert forall p :: p in players <==> p == players[0] || p in players[1..];
      assert players[0] in players;
    }
  }

  lemma {:induction false} SentToConcat(a: seq<Send>, b: seq<Send>, p: Peer)
    ensures SentTo(a + b, p) == SentTo(a, p) + SentTo(b, p)
  {
    if a == [] {
      assert a + b == b;
    } else {
      var head := if a[0].peer == p then [a[0].packet] else [];
      assert (a + b)[0] == a[0] && (a + b)[1..] == a[1..] + b;
      SentToConcat(a[1..], b, p);
      assert SentTo(a + b, p) == head + (SentTo(a[1..], p) + SentTo(b, p));
    }
  }

  /** Sending one packet to a list of peers that names `p` is, for `p`, the packet itself. */
  lemma {:induction false} CopiesAreOne(blank: Element, t: Table, packet: Packet, peers: seq<Peer>, p: Peer)
    requires Sized(blank, packet)
    ensures AllSized(blank, SentTo(SendEach(packet, peers), p))
    ensures Replay(blank, t, SentTo(SendEach(packet, peers), p)) == if p in peers then Handle(blank, t, packet) else t
    ensures SentTo(SendEach(packet, peers), p) != [] <==> p in peers
    decreases |peers|
  {
    if peers != [] {
      assert SendEach(packet, peers)[1..] == SendEach(packet, peers[1..]);
      var u := if peers[0] == p then Handle(blank, t, packet) else t;
      CopiesAreOne(blank, u, packet, peers[1..], p);
      var rest := SentTo(SendEach(packet, peers[1..]), p);
      if peers[0] == p {
        assert ([packet] + rest)[1..] == rest;
        HandleTwice(blank, t, packet);
      } else {
        assert [] + rest == rest;
      }
    }
  }

  lemma PacketsConcat(a: seq<Entry>, b: seq<Entry>)
    ensures Packets(a + b) == Packets(a) + Packets(b)
  {
  }

  lemma PacketsTail(queue: seq<Entry>)
    requires queue != []
    ensures Packets(queue) == [queue[0].packet] + Packets(queue[1..])
    ensures Packets(queue)[0] == queue[0].packet && Packets(queue)[1..] == Packets(queue[1..])
    ensures forall i :: 0 <= i < |queue| - 1 ==> Packets(queue[1..])[i] == Packets(queue)[i + 1]
  {
  }

  /** What a peer is sent of the first packet of a queue, and then of the others. */
  lemma FlushHead(queue: seq<Entry>, players: seq<Peer>, connected: seq<Peer>, p: Peer)
    requires queue != []
    ensures SentTo(FlushSends(queue, players, connected), p)
      == SentTo(SendEach(queue[0].packet, Recipients(Targets(players, queue[0].filter), connected)), p)
       + SentTo(FlushSends(queue[1..], players, connected), p)
  {
    var head := SendEach(queue[0].packet, Recipients(Targets(players, queue[0].filter), connected));
    SentToConcat(head, FlushSends(queue[1..], players, connected), p);
  }

  /**
   * A player that no queued entry is filtered from gets, by one flush, exactly the effect of
   * the queue, even when it owns several objects and gets every packet several times in a row.
   */
  lemma {:induction false} FlushDeliversQueue(
    blank: Element, t: Table, queue: seq<Entry>, players: seq<Peer>, connected: seq<Peer>, p: Peer)
    requires AllSized(blank, Packets(queue))
    requires p in players
    requires forall i :: 0 <= i < |queue| ==> queue[i].filter != Some(p)
    ensures AllSized(blank, SentTo(FlushSends(queue, players, connected), p))
    ensures Replay(blank, t, SentTo(FlushSends(queue, players, connected), p)) == Replay(blank, t, Packets(queue))
    decreases |queue|
  {
    if queue != [] {
      var e := queue[0];
      var to := Recipients(Targets(players, e.filter), connected);
      TargetsAreTheOthers(players, e.filter);
      assert p in to;
      hide SendEach, Targets, Recipients, Handle, SentTo, FlushSends;
      var head, rest := SentTo(SendEach(e.packet, to), p), SentTo(FlushSends(queue[1..], players, connected), p);
      FlushHead(queue, players, connected, p);
      PacketsTail(queue);
      CopiesAreOne(blank, t, e.packet, to, p);
      ReplayConcat(blank, t, head, rest);
      FlushDeliversQueue(blank, Handle(blank, t, e.packet), queue[1..], players, connected, p);
    }
  }

  /** The case in which relayed packets come back to the peer they are filtered from. */
  predicate OnlyOwnerListens(owner: Peer, players: seq<Peer>, connected: seq<Peer>) {
    && (forall p :: p in players ==> p == owner)
    && connected != [] && connected[0] == owner
  }

  lemma {:induction false} EchoAll(queue: seq<Entry>, players: seq<Peer>, connected: seq<Peer>, owner: Peer)
    requires forall i :: 0 <= i < |queue| ==> queue[i].filter == Some(owner)
    requires OnlyOwnerListens(owner, players, connected)
    ensures SentTo(FlushSends(queue, players, connected), owner) == Packets(queue)
    decreases |queue|
  {
    if queue != [] {
      var head := SendEach(queue[0].packet, [owner]);
      TargetsAreTheOthers(players, Some(owner));
      assert Recipients(Targets(players, queue[0].filter), connected) == [owner];
      assert head == [Send(owner, queue[0].packet)];
      assert head[1..] == [];
      FlushHead(queue, players, connected, owner);
      EchoAll(queue[1..], players, connected, owner);
      assert SentTo(head, owner) == [queue[0].packet] + SentTo(head[1..], owner);
      PacketsTail(queue);
    }
  }

  lemma {:induction false} EchoNone(queue: seq<Entry>, players: seq<Peer>, connected: seq<Peer>, owner: Peer)
    requires forall i :: 0 <= i < |queue| ==> queue[i].filter == Some(owner)
    requires !OnlyOwnerListens(owner, players, connected)
    ensures SentTo(FlushSends(queue, players, connected), owner) == []
    decreases |queue|
  {
    if queue != [] {
      var to := Recipients(Targets(players, queue[0].filter), connected);
      TargetsAreTheOthers(players, Some(owner));
      SentToNonEmpty(queue[0].packet, to, owner);
      FlushHead(queue, players, connected, owner);
      EchoNone(queue[1..], players, connected, owner);
    }
  }

  /**
   * What a flush of relayed packets brings back to their owner: the whole queue, once and in
   * order, when no other player is left and the owner is also the default peer; else nothing.
   */
  lemma {:induction false} EchoIsQueue(queue: seq<Entry>, players: seq<Peer>, connected: seq<Peer>, owner: Peer)
    requires forall i :: 0 <= i < |queue| ==> queue[i].filter == Some(owner)
    ensures SentTo(FlushSends(queue, players, connected), owner)
      == if OnlyOwnerListens(owner, players, connected) then Packets(queue) else []
  {
    if OnlyOwnerListens(owner, players, connected) {
      EchoAll(queue, players, connected, owner);
    } else {
      EchoNone(queue, players, connected, owner);
    }
  }

  /** So something comes back exactly in that case, if anything is sent. */
  lemma {:induction false} EchoIff(queue: seq<Entry>, players: seq<Peer>, connected: seq<Peer>, owner: Peer)
    requires forall i :: 0 <= i < |queue| ==> queue[i].filter == Some(owner)
    ensures SentTo(FlushSends(queue, players, connected), owner) != []
      <==> queue != [] && OnlyOwnerListens(owner, players, connected)
  {
    EchoIsQueue(queue, players, connected, owner);
  }

  lemma {:induction false} SentToNonEmpty(packet: Packet, peers: seq<Peer>, p: Peer)
    ensures SentTo(SendEach(packet, peers), p) != [] <==> p in peers
  {
    if peers != [] {
      assert SendEach(packet, peers)[1..] == SendEach(packet, peers[1..]);
      SentToNonEmpty(packet, peers[1..], p);
    }
  }

  /** Nothing is ever sent to a peer that is neither a player nor the default peer. */
  lemma {:induction false} FlushStaysInside(queue: seq<Entry>, players: seq<Peer>, connected: seq<Peer>, p: Peer)
    requires p !in players && (connected == [] || connected[0] != p)
    ensures SentTo(FlushSends(queue, players, connected), p) == []
    decreases |queue|
  {
    if queue != [] {
      var to := Recipients(Targets(players, queue[0].filter), connected);
      TargetsAreTheOthers(players, queue[0].filter);
      SentToNonEmpty(queue[0].packet, to, p);
      FlushHead(queue, players, connected, p);
      FlushStaysInside(queue[1..], players, connected, p);
    }
  }

  /** A client has no players, so all it flushes goes to its first peer, the server, once and in order. */
  lemma {:induction false} ClientFlushGoesUp(queue: seq<Entry>, connected: seq<Peer>)
    requires connected != []
    ensures SentTo(FlushSends(queue, [], connected), connected[0]) == Packets(queue)
    decreases |queue|
  {
    if queue != [] {
      var head := SendEach(queue[0].packet, [connected[0]]);
      assert Recipients(Targets([], queue[0].filter), connected) == [connected[0]];
      assert head == [Send(connected[0], queue[0].packet)];
      assert head[1..] == [];
      FlushHead(queue, [], connected, connected[0]);
      ClientFlushGoesUp(queue[1..], connected);
      assert SentTo(head, connected[0]) == [queue[0].packet] + SentTo(head[1..], connected[0]);
      PacketsTail(queue);
    }
  }

  // ---------------------------------------------------------------- relaying

  /**
   * With more than one player object about, the relayed packets do to any table holding the
   * same elements what the applied packet did, except for an Add of the wrong size under a new
   * key: the blank element it leaves behind is not relayed.
   */
  lemma RelayEquivalentIff(blank: Element, t: Table, players: seq<Peer>, owner: Option<Peer>, p: Packet)
    requires |players| > 1
    ensures Replay(blank, t, Packets(Relay(blank, t, players, owner, p))) == Handle(blank, t, p)
      <==> !(p.Add? && |p.value| != |blank| && p.key !in t)
  {
    var log := Packets(Relay(blank, t, players, owner, p));
    if log != [] {
      assert log == [p];
      assert Replay(blank, t, log) == Handle(blank, t, p);
    } else if p.Add? {
      assert p.key in Handle(blank, t, p);
    }
  }

  /**
   * Relay without echo: when another player is about, a sized packet that changes the table is
   * queued once, and its flush reaches every other player and never the owner.
   */
  lemma RelayReachesOthersOnly(
    blank: Element, t: Table, players: seq<Peer>, connected: seq<Peer>, owner: Peer, other: Peer, p: Packet)
    requires Sized(blank, p) && (p.Update? ==> p.key in t)
    requires owner in players && other in players && other != owner
    ensures Relay(blank, t, players, Some(owner), p) == [Entry(p, Some(owner))]
    ensures forall q :: q in players ==>
      (SentTo(FlushSends(Relay(blank, t, players, Some(owner), p), players, connected), q) != [] <==> q != owner)
  {
    var queue := [Entry(p, Some(owner))];
    var to := Targets(players, Some(owner));
    TargetsAreTheOthers(players, Some(owner));
    assert to != [] by { assert other in to; }
    assert FlushSends(queue, players, connected) == SendEach(p, to);
    forall q ensures SentTo(SendEach(p, to), q) != [] <==> q in to {
      SentToNonEmpty(p, to, q);
    }
  }

  lemma {:induction false} RelayAllConcat(
    blank: Element, t: Table, players: seq<Peer>, owner: Option<Peer>, a: seq<Packet>, b: seq<Packet>)
    ensures RelayAll(blank, t, players, owner, a + b)
      == RelayAll(blank, t, players, owner, a) + RelayAll(blank, Replay(blank, t, a), players, owner, b)
    decreases |a|
  {
    if a == [] {
      assert a + b == b;
    } else {
      assert (a + b)[0] == a[0] && (a + b)[1..] == a[1..] + b;
      RelayAllConcat(blank, Handle(blank, t, a[0]), players, owner, a[1..], b);
    }
  }

  /** Relayed one after another, well-sized packets do to a copy of the table what they did to the table. */
  lemma {:induction false} RelayAllEquivalent(
    blank: Element, t: Table, players: seq<Peer>, owner: Option<Peer>, log: seq<Packet>)
    requires |players| > 1 && AllSized(blank, log)
    ensures Replay(blank, t, Packets(RelayAll(blank, t, players, owner, log))) == Replay(blank, t, log)
    decreases |log|
  {
    if log != [] {
      var first := Relay(blank, t, players, owner, log[0]);
      var rest := RelayAll(blank, Handle(blank, t, log[0]), players, owner, log[1..]);
      RelayEquivalentIff(blank, t, players, owner, log[0]);
      PacketsConcat(first, rest);
      ReplayConcat(blank, t, Packets(first), Packets(rest));
      assert forall i :: 0 <= i < |log[1..]| ==> log[1..][i] == log[i + 1];
      RelayAllEquivalent(blank, Handle(blank, t, log[0]), players, owner, log[1..]);
    }
  }

  lemma {:induction false} RelayedIsSized(
    blank: Element, t: Table, players: seq<Peer>, owner: Option<Peer>, log: seq<Packet>)
    ensures AllSized(blank, Packets(RelayAll(blank, t, players, owner, log)))
    decreases |log|
  {
    if log != [] {
      var rest := RelayAll(blank, Handle(blank, t, log[0]), players, owner, log[1..]);
      PacketsConcat(Relay(blank, t, players, owner, log[0]), rest);
      RelayedIsSized(blank, Handle(blank, t, log[0]), players, owner, log[1..]);
    }
  }

  lemma RelayOne(blank: Element, t: Table, players: seq<Peer>, owner: Option<Peer>, p: Packet)
    ensures RelayAll(blank, t, players, owner, [p]) == Relay(blank, t, players, owner, p)
  {
    assert [p][1..] == [];
    assert RelayAll(blank, Handle(blank, t, p), players, owner, []) == [];
  }

  /** Adds and removals are relayed whether the table has the key or not. */
  lemma {:induction false} AllRelayed(
    blank: Element, t: Table, players: seq<Peer>, owner: Option<Peer>, log: seq<Packet>)
    requires |players| > 1 && AllSized(blank, log)
    requires forall i :: 0 <= i < |log| ==> !log[i].Update?
    ensures Packets(RelayAll(blank, t, players, owner, log)) == log
    decreases |log|
  {
    if log != [] {
      var rest := RelayAll(blank, Handle(blank, t, log[0]), players, owner, log[1..]);
      assert forall i :: 0 <= i < |log[1..]| ==> log[1..][i] == log[i + 1];
      AllRelayed(blank, Handle(blank, t, log[0]), players, owner, log[1..]);
      assert Relay(blank, t, players, owner, log[0]) == [Entry(log[0], owner)];
      PacketsConcat([Entry(log[0], owner)], rest);
    }
  }

  /** Who the players are makes no difference to what is relayed, if there are several. */
  lemma {:induction false} RelayAllSame(
    blank: Element, t: Table, players: seq<Peer>, more: seq<Peer>, owner: Option<Peer>, log: seq<Packet>)
    requires |players| > 1 && |more| > 1
    ensures RelayAll(blank, t, players, owner, log) == RelayAll(blank, t, more, owner, log)
    decreases |log|
  {
    if log != [] {
      RelayAllSame(blank, Handle(blank, t, log[0]), players, more, owner, log[1..]);
    }
  }

  /** Nobody is relayed to when there is at most one player, as on a client. */
  lemma {:induction false} NothingRelayed(
    blank: Element, t: Table, players: seq<Peer>, owner: Option<Peer>, log: seq<Packet>)
    requires |players| <= 1
    ensures RelayAll(blank, t, players, owner, log) == []
    decreases |log|
  {
    if log != [] {
      NothingRelayed(blank, Handle(blank, t, log[0]), players, owner, log[1..]);
    }
  }

  /**
   * A change whose packets come back to their writer, after whatever else was on its way there,
   * ends as if the writer had made it then: an echo repairs what packets that crossed undid.
   */
  lemma EchoRepairs(blank: Element, own: Table, c: Change, log: seq<Packet>, players: seq<Peer>, owner: Option<Peer>)
    requires |players| > 1 && ChangeOk(blank, own, c)
    ensures var met := Replay(blank, own, log);
      Replay(blank, Apply(own, c), log + Packets(RelayAll(blank, met, players, owner, Emit(own, c))))
        == Replay(blank, met, Emit(own, c))
  {
    var met, e := Replay(blank, own, log), Emit(own, c);
    var back := Packets(RelayAll(blank, met, players, owner, e));
    var x, y := Replay(blank, Apply(own, c), log + back), Replay(blank, met, e);
    EmitMatchesApply(blank, own, c);
    forall k ensures Lookup(x, k) == Lookup(y, k) {
      ReplayIsPointwise(blank, Apply(own, c), log + back, k);
      ReplayIsPointwise(blank, own, log, k);
      ReplayIsPointwise(blank, met, e, k);
      EchoCell(blank, own, c, log, players, owner, k);
    }
    SameCells(x, y);
  }

  lemma EchoCell(
    blank: Element, own: Table, c: Change, log: seq<Packet>, players: seq<Peer>, owner: Option<Peer>, k: Key)
    requires |players| > 1 && ChangeOk(blank, own, c)
    ensures var met := Replay(blank, own, log);
      CellReplay(blank, k, Lookup(Apply(own, c), k), log + Packets(RelayAll(blank, met, players, owner, Emit(own, c))))
        == CellReplay(blank, k, Lookup(met, k), Emit(own, c))
  {
    var met, e := Replay(blank, own, log), Emit(own, c);
    var back := Packets(RelayAll(blank, met, players, owner, e));
    var start := Lookup(Apply(own, c), k);
    var crossed := CellReplay(blank, k, start, log);
    EmitMatchesApply(blank, own, c);
    CellConcat(blank, k, start, log, back);
    ReplayIsPointwise(blank, own, log, k);
    if c.Set? && c.key in own {
      assert e == [e[0]];
      PresenceOnly(blank, k, Lookup(own, k), start, log);
      RelayOne(blank, met, players, owner, e[0]);
      assert back == if c.key in met then e else [];
      assert CellReplay(blank, k, Lookup(met, k), e) == CellStep(blank, k, Lookup(met, k), e[0]);
      assert CellReplay(blank, k, crossed, e) == CellStep(blank, k, crossed, e[0]);
    } else {
      AllRelayed(blank, met, players, owner, e);
      if Touches(e, k) {
        EmitCell(blank, own, c, k, crossed);
        EmitCell(blank, own, c, k, Lookup(met, k));
      } else {
        UntouchedCell(blank, k, crossed, e);
        UntouchedCell(blank, k, Lookup(met, k), e);
        assert start == Lookup(own, k) by {
          ReplayIsPointwise(blank, own, e, k);
          UntouchedCell(blank, k, Lookup(own, k), e);
        }
      }
    }
  }
}
