/**
 * The list object itself: a hash map and an update queue that local changes, remote packets and
 * the update tick modify in place, and the packets that send themselves when destroyed.
 */
module NetVarList {
  import opened NetTypes
  import opened ListReplication
  import opened ListDelivery

  /** The part of the network controller that packets use. */
  class NetSystem {
    var running: bool
    var peerList: seq<Peer>
    var sent: seq<ListDelivery.Send>

    constructor (peers: seq<Peer>)
      ensures running && peerList == peers && sent == []
    {
      running, peerList, sent := true, peers, [];
    }

    /** A null pointer when nobody is connected. */
    function GetFirstPeer(): Option<Peer>
      reads this
    {
      if |peerList| == 0 then None else Some(peerList[0])
    }

    /** The peers a packet is sent to; the first one stands in for none. */
    function OrFirst(peers: seq<Option<Peer>>): seq<Option<Peer>>
      reads this
    {
      if peers == [] then [GetFirstPeer()] else peers
    }

    /** Nothing goes to a null peer, nor while the system is stopped. */
    method Send(peer: Option<Peer>, packet: Packet)
      modifies this`sent
      ensures sent == old(sent) + if running && peer.Some? then [ListDelivery.Send(peer.value, packet)] else []
    {
      if peer == None {
        return;
      }
      if !running {
        return;
      }
      sent := sent + [ListDelivery.Send(peer.value, packet)];
    }
  }

  /** The peers among some pointers. */
  function NonNull(peers: seq<Option<Peer>>): seq<Peer> {
    if peers == [] then []
    else NonNull(peers[..|peers| - 1]) + match peers[|peers| - 1] case Some(p) => [p] case None => []
  }

  function Pointers(peers: seq<Peer>): (pointers: seq<Option<Peer>>)
    ensures |pointers| == |peers| && forall i :: 0 <= i < |peers| ==> pointers[i] == Some(peers[i])
  {
    seq(|peers|, i requires 0 <= i < |peers| => Some(peers[i]))
  }

  lemma {:induction false} NonNullPointers(peers: seq<Peer>)
    ensures NonNull(Pointers(peers)) == peers
  {
    if peers != [] {
      var n := |peers| - 1;
      assert Pointers(peers)[..n] == Pointers(peers[..n]);
      NonNullPointers(peers[..n]);
    }
  }

  /** Whom a packet goes to that was addressed to these peers: what the default peer rule comes to. */
  lemma DefaultPeer(peers: seq<Peer>, pointers: seq<Option<Peer>>, net: NetSystem)
    requires pointers == Pointers(peers)
    ensures NonNull(net.OrFirst(pointers)) == Recipients(peers, net.peerList)
  {
    if peers == [] {
      assert ([net.GetFirstPeer()])[..0] == [];
    } else {
      NonNullPointers(peers);
    }
  }

  datatype PacketStatus = Pending | Disabled | Dispatched

  /** A list message together with the peers it is addressed to. */
  class ProtoPacket {
    const message: Packet
    var status: PacketStatus
    var peers: seq<Option<Peer>>

    constructor (message: Packet)
      ensures this.message == message && status == Pending && peers == []
    {
      this.message, status, peers := message, Pending, [];
    }

    method AddPeer(peer: Option<Peer>)
      modifies this`peers
      ensures peers == old(peers) + [peer]
    {
      peers := peers + [peer];
    }

    method AllocateDefaultPeer(net: NetSystem)
      modifies this`peers
      ensures peers == net.OrFirst(old(peers))
    {
      if |peers| != 0 {
        return;
      }
      peers := peers + [net.GetFirstPeer()];
    }

    method Dispatch(net: NetSystem)
      modifies this, net`sent
      ensures status == Dispatched && peers == net.OrFirst(old(peers))
      ensures net.sent == old(net.sent) + if net.running then SendEach(message, NonNull(peers)) else []
    {
      AllocateDefaultPeer(net);
      ghost var all := peers;
      var i := 0;
      while i < |peers|
        invariant i <= |peers| && peers == all
        invariant net.sent == old(net.sent) + if net.running then SendEach(message, NonNull(peers[..i])) else []
        modifies net`sent
      {
        net.Send(peers[i], message);
        assert peers[..i + 1][..i] == peers[..i];
        i := i + 1;
      }
      assert peers[..i] == peers;
      status := Dispatched;
    }

    /** The destructor sends a packet that was never dispatched, and only such a packet. */
    method Destroy(net: NetSystem)
      modifies this, net`sent
      ensures net.sent == old(net.sent)
        + if net.running && old(status) == Pending then SendEach(message, NonNull(net.OrFirst(old(peers)))) else []
    {
      if status == Pending {
        Dispatch(net);
      }
    }
  }

  datatype Queued = Queued(packet: ProtoPacket, filter: Option<Peer>)

  /** What a queue holds, without the packet objects. */
  function EntriesOf(queue: seq<Queued>): seq<Entry> {
    seq(|queue|, i requires 0 <= i < |queue| => Entry(queue[i].packet.message, queue[i].filter))
  }

  function PacketsOf(queue: seq<Queued>): set<ProtoPacket> {
    set i | 0 <= i < |queue| :: queue[i].packet
  }

  class List {
    const blank: Element          // a default-constructed element
    const owner: Option<Peer>     // the peer of the object the list belongs to
    var data: Table
    var queue: seq<Queued>

    /** Every queued packet is its own object, still pending and addressed to nobody yet. */
    predicate Valid()
      reads this, PacketsOf(queue)
    {
      && (forall i, j :: 0 <= i < j < |queue| ==> queue[i].packet != queue[j].packet)
      && (forall i :: 0 <= i < |queue| ==> queue[i].packet.status == Pending)
      && (forall i :: 0 <= i < |queue| ==> queue[i].packet.peers == [])
    }

    constructor (blank: Element, owner: Option<Peer>)
      ensures Valid() && data == map[] && queue == []
      ensures this.blank == blank && this.owner == owner
    {
      this.blank, this.owner, data, queue := blank, owner, map[], [];
    }

    method PushUpdate(message: Packet, filter: Option<Peer>)
      requires Valid()
      modifies this`queue
      ensures Valid() && fresh(PacketsOf(queue) - old(PacketsOf(queue)))
      ensures EntriesOf(queue) == old(EntriesOf(queue)) + [Entry(message, filter)]
    {
      var packet := new ProtoPacket(message);
      queue := queue + [Queued(packet, filter)];
    }

    method Create(key: Key, value: Element) returns (element: Element)
      requires Valid() && |value| == |blank|
      modifies this`data, this`queue
      ensures Valid()
      ensures data == Apply(old(data), Change.Create(key, value))
      ensures EntriesOf(queue) == old(EntriesOf(queue)) + Queueing(Emit(old(data), Change.Create(key, value)), None)
      ensures key in data && element == data[key]
      ensures key in old(data) ==> data == old(data) && EntriesOf(queue) == old(EntriesOf(queue))
      ensures key !in old(data) ==>
        && data == old(data)[key := value]
        && EntriesOf(queue) == old(EntriesOf(queue)) + [Entry(Add(key, value), None)]
    {
      if key in data {
        return data[key];
      }
      data := data[key := value];
      PushUpdate(Add(key, value), None);
      return data[key];
    }

    method Set(key: Key, value: Element)
      requires Valid() && |value| == |blank|
      modifies this`data, this`queue
      ensures Valid()
      ensures data == Apply(old(data), Change.Set(key, value))
      ensures EntriesOf(queue) == old(EntriesOf(queue)) + Queueing(Emit(old(data), Change.Set(key, value)), None)
      ensures key !in old(data) ==> data == old(data) && EntriesOf(queue) == old(EntriesOf(queue))
      ensures key in old(data) ==>
        && data == old(data)[key := value]
        && EntriesOf(queue) == old(EntriesOf(queue)) + [Entry(Update(key, value), None)]
    {
      if key !in data {
        return;
      }
      data := data[key := value];
      PushUpdate(Update(key, value), None);
    }

    method Remove(key: Key) returns (removed: bool)
      requires Valid()
      modifies this`data, this`queue
      ensures Valid()
      ensures removed == (key in old(data))
      ensures data == Apply(old(data), Erase(key))
      ensures EntriesOf(queue) == old(EntriesOf(queue)) + Queueing(Emit(old(data), Erase(key)), None)
      ensures data == old(data) - {key}
      ensures EntriesOf(queue) == old(EntriesOf(queue)) + if removed then [Entry(Packet.Remove(key), None)] else []
    {
      if key !in data {
        return false;
      }
      data := data - {key};
      PushUpdate(Packet.Remove(key), None);
      return true;
    }

    /** Erases the first element of the map until none is left; returns the order it met. */
    method Clear() returns (ghost order: seq<Key>)
      requires Valid()
      modifies this`data, this`queue
      ensures Valid()
      ensures ChangeOk(blank, old(data), Change.Clear(order))
      ensures data == Apply(old(data), Change.Clear(order))
      ensures EntriesOf(queue) == old(EntriesOf(queue)) + Queueing(Emit(old(data), Change.Clear(order)), None)
      ensures data == map[] && (forall key :: key in order <==> key in old(data))
      ensures forall i, j :: 0 <= i < j < |order| ==> order[i] != order[j]
      ensures |queue| == |old(queue)| + |order| && EntriesOf(queue)[..|old(queue)|] == old(EntriesOf(queue))
      ensures forall i :: 0 <= i < |order| ==>
        EntriesOf(queue)[|old(queue)| + i] == Entry(Packet.Remove(order[i]), None)
    {
      order := [];
      while data != map[]
        invariant Valid()
        invariant Enumerates(order, old(data).Keys - data.Keys) && data.Keys <= old(data).Keys
        invariant EntriesOf(queue) == old(EntriesOf(queue)) + Queueing(Removes(order), None)
        decreases data.Keys
      {
        var key :| key in data;
        ghost var before := data;
        var _ := Remove(key);
        assert Removes(order + [key]) == Removes(order) + [Packet.Remove(key)];
        order := order + [key];
        assert data.Keys == before.Keys - {key};
      }
    }

    /** One element of SendContents: its packet is dispatched and then destroyed, which does not send it again. */
    static method SendElement(peer: Peer, message: Packet, net: NetSystem)
      modifies net`sent
      ensures net.sent == old(net.sent) + if net.running then [ListDelivery.Send(peer, message)] else []
    {
      var packet := new ProtoPacket(message);
      packet.AddPeer(Some(peer));
      DefaultPeer([peer], packet.peers, net);
      packet.Dispatch(net);
      packet.Destroy(net);
      assert SendEach(message, [peer]) == [ListDelivery.Send(peer, message)];
    }

    /** One Add per element to one peer. */
    method SendContents(peer: Peer, net: NetSystem) returns (ghost order: seq<Key>)
      modifies net`sent
      ensures Enumerates(order, data.Keys)
      ensures net.sent == old(net.sent) + if net.running then SendLog(peer, Dump(data, order)) else []
    {
      order := [];
      var rest := data;
      while rest != map[]
        invariant Enumerates(order, data.Keys - rest.Keys) && rest.Keys <= data.Keys
        invariant forall k :: k in rest ==> rest[k] == data[k]
        invariant net.sent == old(net.sent) + if net.running then SendLog(peer, Dump(data, order)) else []
        decreases rest.Keys
      {
        var key :| key in rest;
        SendElement(peer, Add(key, rest[key]), net);
        assert SendLog(peer, Dump(data, order + [key]))
          == SendLog(peer, Dump(data, order)) + [ListDelivery.Send(peer, Add(key, data[key]))];
        order := order + [key];
        assert (rest - {key}).Keys == rest.Keys - {key};
        rest := rest - {key};
      }
    }

    /** Addresses every queued packet to the players it is not filtered from. */
    method SendDelta(players: seq<Peer>)
      requires Valid()
      modifies PacketsOf(queue)
      ensures forall i, j :: 0 <= i < j < |queue| ==> queue[i].packet != queue[j].packet
      ensures forall i :: 0 <= i < |queue| ==> queue[i].packet.status == Pending
      ensures forall i :: 0 <= i < |queue| ==> queue[i].packet.peers == Pointers(Targets(players, queue[i].filter))
    {
      var items := queue;
      var i := 0;
      while i < |items|
        invariant i <= |items|
        invariant forall k :: 0 <= k < |items| ==> items[k].packet.status == Pending
        invariant forall k :: 0 <= k < i ==> items[k].packet.peers == Pointers(Targets(players, items[k].filter))
        invariant forall k :: i <= k < |items| ==> items[k].packet.peers == []
        modifies PacketsOf(items)
      {
        AddTargets(items[i], players);
        i := i + 1;
      }
    }

    /** The inner loop of SendDelta: one packet, every player but the filtered one. */
    static method AddTargets(item: Queued, players: seq<Peer>)
      requires item.packet.peers == []
      modifies item.packet`peers
      ensures item.packet.peers == Pointers(Targets(players, item.filter))
    {
      var j := 0;
      while j < |players|
        invariant j <= |players|
        invariant item.packet.peers == Pointers(Targets(players[..j], item.filter))
      {
        if Some(players[j]) != item.filter {
          item.packet.AddPeer(Some(players[j]));
        }
        TargetsStep(players, j, item.filter);
        j := j + 1;
      }
      assert players[..j] == players;
    }

    /** An addressed packet that is destroyed goes to its players, or else to the default peer. */
    static method DestroyQueued(item: Queued, net: NetSystem, ghost players: seq<Peer>)
      requires item.packet.status == Pending && item.packet.peers == Pointers(Targets(players, item.filter))
      modifies item.packet, net`sent
      ensures net.sent == old(net.sent) + if net.running
        then SendEach(item.packet.message, Recipients(Targets(players, item.filter), net.peerList)) else []
    {
      DefaultPeer(Targets(players, item.filter), item.packet.peers, net);
      item.packet.Destroy(net);
    }

    /** Clearing the queue destroys its packets, which dispatches them. */
    method Flush(net: NetSystem, ghost players: seq<Peer>)
      requires forall i, j :: 0 <= i < j < |queue| ==> queue[i].packet != queue[j].packet
      requires forall i :: 0 <= i < |queue| ==> queue[i].packet.status == Pending
      requires forall i :: 0 <= i < |queue| ==> queue[i].packet.peers == Pointers(Targets(players, queue[i].filter))
      modifies this`queue, PacketsOf(queue), net`sent
      ensures Valid() && queue == []
      ensures net.sent == old(net.sent)
        + if net.running then FlushSends(old(EntriesOf(queue)), players, net.peerList) else []
    {
      var items := queue;
      ghost var entries, connected, before := EntriesOf(items), net.peerList, net.sent;
      assert FlushSends(entries[..0], players, connected) == [];
      hide FlushSends, SendEach, Recipients, Targets, NonNull, Pointers;
      var i := 0;
      while i < |items|
        invariant i <= |items|
        invariant forall k :: i <= k < |items| ==> items[k].packet.status == Pending
        invariant forall k :: i <= k < |items| ==> items[k].packet.peers == Pointers(Targets(players, items[k].filter))
        invariant net.sent == before + if net.running then FlushSends(entries[..i], players, connected) else []
        modifies PacketsOf(items), net`sent
      {
        ghost var now := SendEach(entries[i].packet, Recipients(Targets(players, entries[i].filter), connected));
        ghost var sentBefore := FlushSends(entries[..i], players, connected);
        DestroyQueued(items[i], net, players);
        FlushStep(entries, i, players, connected);
        assert before + (sentBefore + now) == (before + sentBefore) + now;
        i := i + 1;
      }
      assert entries[..i] == entries;
      queue := [];
    }

    /** One update tick: address the deltas, then let them go. */
    method UpdateListDelta(players: seq<Peer>, net: NetSystem)
      requires Valid()
      modifies this`queue, PacketsOf(queue), net`sent
      ensures Valid() && queue == []
      ensures net.sent == old(net.sent)
        + if net.running then FlushSends(old(EntriesOf(queue)), players, net.peerList) else []
    {
      SendDelta(players);
      Flush(net, players);
    }

    // -------------------------------------------------------------- remote packets

    /** The bytes of a packet copied over those of an element of the same size. */
    method WriteElement(key: Key, value: Element)
      requires key in data && |data[key]| == |value|
      modifies this`data
      ensures data == old(data)[key := value]
    {
      ghost var was := data[key];
      var i := 0;
      while i < |value|
        invariant i <= |value|
        invariant key in data && data[key] == value[..i] + was[i..]
        invariant data == old(data)[key := data[key]]
      {
        data := data[key := data[key][i := value[i]]];
        i := i + 1;
      }
      assert data[key] == value;
    }

    /** The callback every list binds to its own events: queue the change for the others. */
    method RelayPacket(message: Packet, players: seq<Peer>)
      requires Valid()
      modifies this`queue
      ensures Valid()
      ensures EntriesOf(queue) == old(EntriesOf(queue)) + if |players| <= 1 then [] else [Entry(message, owner)]
    {
      if |players| <= 1 {
        return;
      }
      PushUpdate(message, owner);
    }

    method OnRemoteAdd(key: Key, value: Element, players: seq<Peer>) returns (result: Result<()>)
      requires Valid() && TableSized(blank, data)
      modifies this`data, this`queue
      ensures Valid() && TableSized(blank, data)
      ensures data == Handle(blank, old(data), Add(key, value))
      ensures EntriesOf(queue) == old(EntriesOf(queue)) + Relay(blank, old(data), players, owner, Add(key, value))
      ensures result == if |value| == |blank| then Ok(()) else Err(SizeMismatch)
      ensures data == if |value| == |blank| then old(data)[key := value]
        else if key in old(data) then old(data) else old(data)[key := blank]
      ensures EntriesOf(queue) == old(EntriesOf(queue))
        + if |value| == |blank| && |players| > 1 then [Entry(Add(key, value), owner)] else []
    {
      if key !in data {
        data := data[key := blank];
      }
      if |data[key]| != |value| {
        return Err(SizeMismatch);
      }
      WriteElement(key, value);
      RelayPacket(Add(key, data[key]), players);
      return Ok(());
    }

    method OnRemoteUpdate(key: Key, value: Element, players: seq<Peer>) returns (result: Result<()>)
      requires Valid() && TableSized(blank, data)
      modifies this`data, this`queue
      ensures Valid() && TableSized(blank, data)
      ensures data == Handle(blank, old(data), Update(key, value))
      ensures EntriesOf(queue) == old(EntriesOf(queue)) + Relay(blank, old(data), players, owner, Update(key, value))
      ensures result ==
        if key !in old(data) then Err(KeyMissing) else if |value| == |blank| then Ok(()) else Err(SizeMismatch)
      ensures data == if key in old(data) && |value| == |blank| then old(data)[key := value] else old(data)
      ensures EntriesOf(queue) == old(EntriesOf(queue))
        + if key in old(data) && |value| == |blank| && |players| > 1 then [Entry(Update(key, value), owner)] else []
    {
      if key !in data {
        return Err(KeyMissing);
      }
      if |data[key]| != |value| {
        return Err(SizeMismatch);
      }
      WriteElement(key, value);
      RelayPacket(Update(key, data[key]), players);
      return Ok(());
    }

    /**
     * The callbacks run before the removal and look the key up with the subscript operator, so
     * an absent key exists for a moment and is always found by the removal that follows.
     */
    method OnRemoteRemove(key: Key, players: seq<Peer>) returns (result: Result<()>)
      requires Valid()
      modifies this`data, this`queue
      ensures Valid()
      ensures data == Handle(blank, old(data), Packet.Remove(key))
      ensures EntriesOf(queue) == old(EntriesOf(queue)) + Relay(blank, old(data), players, owner, Packet.Remove(key))
      ensures result == Ok(()) && data == old(data) - {key}
      ensures EntriesOf(queue) == old(EntriesOf(queue))
        + if |players| > 1 then [Entry(Packet.Remove(key), owner)] else []
    {
      if key !in data {
        data := data[key := blank];
      }
      RelayPacket(Packet.Remove(key), players);
      if key !in data {
        return Err(KeyMissing);
      }
      data := data - {key};
      return Ok(());
    }

    /** Which handler a packet is for. */
    method OnRemote(message: Packet, players: seq<Peer>)
      requires Valid() && TableSized(blank, data)
      modifies this`data, this`queue
      ensures Valid() && TableSized(blank, data)
      ensures data == Handle(blank, old(data), message)
      ensures EntriesOf(queue) == old(EntriesOf(queue)) + Relay(blank, old(data), players, owner, message)
    {
      match message
      case Add(key, value) => var _ := OnRemoteAdd(key, value, players);
      case Update(key, value) => var _ := OnRemoteUpdate(key, value, players);
      case Remove(key) => var _ := OnRemoteRemove(key, players);
    }

    /**
     * Packets handed over one after another. With at most one player, as on a client, whose
     * objects have no peers, none of them is queued, whatever they do to the table.
     */
    method OnRemoteAll(log: seq<Packet>, players: seq<Peer>)
      requires Valid() && TableSized(blank, data)
      modifies this`data, this`queue
      ensures Valid() && TableSized(blank, data)
      ensures data == Replay(blank, old(data), log)
      ensures EntriesOf(queue) == old(EntriesOf(queue)) + RelayAll(blank, old(data), players, owner, log)
      ensures |players| <= 1 ==> EntriesOf(queue) == old(EntriesOf(queue))
    {
      ghost var before, entries := data, EntriesOf(queue);
      var i := 0;
      while i < |log|
        invariant i <= |log| && Valid() && TableSized(blank, data)
        invariant data == Replay(blank, before, log[..i])
        invariant EntriesOf(queue) == entries + RelayAll(blank, before, players, owner, log[..i])
      {
        HandledNext(blank, before, players, owner, log, i);
        OnRemote(log[i], players);
        i := i + 1;
      }
      assert log[..i] == log;
      if |players| <= 1 {
        NothingRelayed(blank, before, players, owner, log);
      }
    }
  }

  lemma HandledNext(blank: Element, t: Table, players: seq<Peer>, owner: Option<Peer>, log: seq<Packet>, i: nat)
    requires i < |log|
    ensures var u := Replay(blank, t, log[..i]);
      && Replay(blank, t, log[..i + 1]) == Handle(blank, u, log[i])
      && RelayAll(blank, t, players, owner, log[..i + 1])
        == RelayAll(blank, t, players, owner, log[..i]) + Relay(blank, u, players, owner, log[i])
  {
    var u := Replay(blank, t, log[..i]);
    assert log[..i + 1] == log[..i] + [log[i]];
    ReplayConcat(blank, t, log[..i], [log[i]]);
    RelayAllConcat(blank, t, players, owner, log[..i], [log[i]]);
    RelayOne(blank, u, players, owner, log[i]);
    assert [log[i]][1..] == [];
  }

  function SendLog(peer: Peer, log: seq<Packet>): seq<ListDelivery.Send> {
    seq(|log|, i requires 0 <= i < |log| => ListDelivery.Send(peer, log[i]))
  }

  lemma {:induction false} TargetsStep(players: seq<Peer>, j: nat, filter: Option<Peer>)
    requires j < |players|
    ensures Targets(players[..j + 1], filter)
      == Targets(players[..j], filter) + if Some(players[j]) != filter then [players[j]] else []
    decreases j
  {
    if j > 0 {
      assert players[..j + 1][1..] == players[1..][..j] && players[..j][1..] == players[1..][..j - 1];
      TargetsStep(players[1..], j - 1, filter);
    } else {
      assert players[..1] == [players[0]];
    }
  }

  lemma {:induction false} FlushStep(queue: seq<Entry>, i: nat, players: seq<Peer>, connected: seq<Peer>)
    requires i < |queue|
    ensures FlushSends(queue[..i + 1], players, connected)
      == FlushSends(queue[..i], players, connected)
       + SendEach(queue[i].packet, Recipients(Targets(players, queue[i].filter), connected))
    decreases i
  {
    hide SendEach, Recipients, Targets;
    if i > 0 {
      var first := SendEach(queue[0].packet, Recipients(Targets(players, queue[0].filter), connected));
      var last := SendEach(queue[i].packet, Recipients(Targets(players, queue[i].filter), connected));
      assert queue[..i + 1][1..] == queue[1..][..i] && queue[..i][1..] == queue[1..][..i - 1];
      FlushStep(queue[1..], i - 1, players, connected);
      assert first + (FlushSends(queue[1..][..i - 1], players, connected) + last)
        == (first + FlushSends(queue[1..][..i - 1], players, connected)) + last;
    } else {
      assert queue[..1] == [queue[0]];
    }
  }

  /** What a dump puts on the wire is, for its one peer, the dump itself. */
  lemma {:induction false} SendLogReaches(peer: Peer, log: seq<Packet>)
    ensures SentTo(SendLog(peer, log), peer) == log
  {
    if log != [] {
      assert SendLog(peer, log)[1..] == SendLog(peer, log[1..]);
      SendLogReaches(peer, log[1..]);
    }
  }
}
