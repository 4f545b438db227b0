/** That changes arrive: what a run from a write, a connection or a departure brings whom. */
module ListArrival {
  import opened NetTypes
  import opened ListReplication
  import opened ListDelivery
  import opened ListProtocol
  import opened ListOwner

  /**
   * From every reachable state, a change the server makes can be run to a player that converges:
   * once nothing is left for it, the player holds exactly the server's table with that change made.
   */
  lemma ServerWriteArrives(c: Config, s: System, change: Change, p: Peer) returns (events: seq<Event>, end: System)
    requires Inv(c, s) && c.writer.ServerWrites? && Possible(c, s, Write(change)) && p in s.clean
    ensures events != [] && events[0] == Write(change) && RunsTo(c, s, events, end)
    ensures end.queue == [] && p in end.down && end.down[p] == [] && p in end.replica
    ensures end.replica[p] == end.table
    ensures change.Create? ==>
      end.table == if change.key in s.table then s.table else s.table[change.key := change.value]
    ensures change.Set? ==>
      end.table == if change.key in s.table then s.table[change.key := change.value] else s.table
    ensures change.Erase? ==> end.table == s.table - {change.key}
    ensures change.Clear? ==> end.table == map[]
  {
    StepKeepsInv(c, s, Write(change));
    var s' := Step(c, s, Write(change));
    var rest;
    rest, end := DrainPlayer(c, s', p);
    events := [Write(change)] + rest;
    assert events[1..] == rest;
    assert Converges(c, s', p);
  }

  lemma {:induction false} RunsAppend(c: Config, s: System, a: seq<Event>, t: System, b: seq<Event>, u: System)
    requires RunsTo(c, s, a, t) && RunsTo(c, t, b, u)
    ensures RunsTo(c, s, a + b, u)
    decreases |a|
  {
    if a == [] {
      assert a + b == b;
    } else {
      assert (a + b)[1..] == a[1..] + b && (a + b)[0] == a[0];
      RunsAppend(c, Step(c, s, a[0]), a[1..], t, b, u);
    }
  }

  lemma {:induction false} MovesKeepClean(c: Config, s: System, events: seq<Event>, end: System)
    requires RunsTo(c, s, events, end) && forall i :: 0 <= i < |events| ==> Moves(events[i])
    ensures end.clean == s.clean && end.players == s.players
    decreases |events|
  {
    if events != [] {
      assert forall i :: 0 <= i < |events[1..]| ==> events[1..][i] == events[i + 1];
      MovesKeepClean(c, Step(c, s, events[0]), events[1..], end);
    }
  }

  /** What a change queues, key by key, for any table it meets. */
  lemma EmitOnOther(blank: Element, own: Table, t: Table, change: Change)
    requires ChangeOk(blank, own, change)
    ensures var u := Replay(blank, t, Emit(own, change));
      && (change.Create? ==> u == if change.key in own then t else t[change.key := change.value])
      && (change.Set? ==> u == if change.key in own && change.key in t then t[change.key := change.value] else t)
      && (change.Erase? ==> u == if change.key in own then t - {change.key} else t)
      && (change.Clear? ==> u == t - own.Keys)
  {
    match change
    case Create(k, v) => OnePacket(blank, t, Add(k, v));
    case Set(k, v) => OnePacket(blank, t, Update(k, v));
    case Erase(k) => OnePacket(blank, t, Remove(k));
    case Clear(order) =>
      ReplayRemoves(blank, t, order);
      assert (set k | k in order) == own.Keys;
  }

  lemma OnePacket(blank: Element, t: Table, p: Packet)
    ensures Replay(blank, t, [p]) == Handle(blank, t, p)
  {
    assert [p][1..] == [];
  }

  /**
   * The same for a writing owner, whatever is still on its way up: once all has been handled, the
   * server and every player that converges hold the table that was going to be, with the change made.
   */
  lemma OwnerWriteArrives(c: Config, s: System, change: Change, p: Peer) returns (events: seq<Event>, end: System)
    requires Inv(c, s) && c.writer.OwnerWrites? && Possible(c, s, Write(change)) && p in s.clean
    ensures events != [] && events[0] == Write(change) && RunsTo(c, s, events, end)
    ensures end.up == [] && end.ownerQueue == [] && end.queue == []
    ensures p in end.down && end.down[p] == [] && p in end.replica && end.replica[p] == end.table
    ensures var own, t := s.replica[c.writer.owner], Replay(c.blank, s.table, s.up + s.ownerQueue);
      && (change.Create? ==> end.table == if change.key in own then t else t[change.key := change.value])
      && (change.Set? ==>
        end.table == if change.key in own && change.key in t then t[change.key := change.value] else t)
      && (change.Erase? ==> end.table == if change.key in own then t - {change.key} else t)
      && (change.Clear? ==> end.table == t - own.Keys)
  {
    var own := s.replica[c.writer.owner];
    StepKeepsInv(c, s, Write(change));
    var s' := Step(c, s, Write(change));
    assert Rising(s') == Rising(s) + Emit(own, change);
    ReplayConcat(c.blank, s.table, Rising(s), Emit(own, change));
    EmitOnOther(c.blank, own, Replay(c.blank, s.table, Rising(s)), change);
    var first, met := Drain(c, s');
    DrainIff(c, s', first, met);
    MovesKeepClean(c, s', first, met);
    assert Converges(c, met, p);
    var rest;
    rest, end := DrainPlayer(c, met, p);
    RunsAppend(c, s', first, met, rest, end);
    events := [Write(change)] + (first + rest);
    assert events[1..] == first + rest;
  }

  // ---------------------------------------------------------------- coming and going

  /** What a connecting client has been sent is the server's table, before anything is built for it. */
  lemma ConnectShows(c: Config, s: System, p: Peer, order: seq<Key>)
    requires Inv(c, s) && Possible(c, s, Connect(p, order))
    ensures var t := Step(c, s, Connect(p, order));
      && t.connected == s.connected + [p] && t.players == s.players && t.table == s.table && t.queue == s.queue
      && p in t.down && p in t.replica && Replay(c.blank, t.replica[p], t.down[p]) == s.table
      && forall q :: q in s.down ==> q in t.down && t.down[q] == s.down[q] && t.replica[q] == s.replica[q]
  {
    DumpRebuilds(c.blank, s.table, order);
  }

  /** A peer without an object that is not the first connected one is sent nothing more, whatever is queued. */
  lemma WithoutObjectNothing(c: Config, s: System, p: Peer)
    requires Inv(c, s) && p in s.connected && p !in s.players && s.connected[0] != p
    ensures Step(c, s, Flush).down[p] == s.down[p]
  {
    FlushStaysInside(s.queue, s.players, s.connected, p);
  }

  /** A peer whose one object is freed loses its place among the players, and nobody else does. */
  lemma LeaverGoes(c: Config, s: System, i: nat, q: Peer)
    requires Inv(c, s) && Possible(c, s, Leave(i))
    ensures var t := Step(c, s, Leave(i));
      && t.down == s.down && t.replica == s.replica && t.table == s.table && t.queue == s.queue
      && multiset(t.players) == multiset(s.players) - multiset{s.players[i]}
      && (q in t.clean <==> q in s.clean && q in t.players)
  {
    assert s.players == s.players[..i] + [s.players[i]] + s.players[i + 1..];
  }

  /** A peer that disconnects is gone from every list and table, and all others are as they were. */
  lemma DisconnectedIsGone(c: Config, s: System, p: Peer, q: Peer)
    requires Inv(c, s) && Possible(c, s, Disconnect(p))
    ensures var t := Step(c, s, Disconnect(p));
      && p !in t.players && p !in t.connected && p !in t.down && p !in t.replica && p !in t.clean
      && (q != p ==>
        && multiset(t.players)[q] == multiset(s.players)[q] && multiset(t.connected)[q] == multiset(s.connected)[q]
        && (q in s.down ==> q in t.down && t.down[q] == s.down[q] && t.replica[q] == s.replica[q])
        && (q in t.clean <==> q in s.clean))
      && t.table == s.table && t.queue == s.queue && t.up == s.up && t.ownerQueue == s.ownerQueue
  {
    OthersCounted(s.players, p, q);
    OthersCounted(s.connected, p, q);
  }

  lemma {:induction false} OthersCounted(players: seq<Peer>, p: Peer, q: Peer)
    ensures q != p ==> multiset(WithoutPeer(players, p))[q] == multiset(players)[q]
  {
    if players != [] {
      OthersCounted(players[1..], p, q);
      assert players == [players[0]] + players[1..];
    }
  }
}
