/** What a tick, or the welcome of a new player, sends: a reliable pass, then an unreliable one. */
module SnapshotTick {
  import opened NetTypes
  import opened SnapshotFrame
  import opened SnapshotPacket
  import opened NetVariable
  import opened SnapshotSystem
  import opened SnapshotTransfer
  import opened SnapshotReception

  lemma {:induction false} ArrivalsAreSent(vs: seq<Sample>, reliable: bool, forced: bool)
    requires AllReady(vs)
    ensures var sent, frames := Sends(vs, reliable, forced), Arrivals(vs, reliable, forced);
      |frames| == |sent| <= |vs| && forall n :: 0 <= n < |sent| ==> frames[n] == Received(sent[n])
  {
    hide Selected, Extended;
    if vs != [] {
      ArrivalsAreSent(vs[1..], reliable, forced);
      var sent, frames := Sends(vs[1..], reliable, forced), Arrivals(vs[1..], reliable, forced);
      var f := FrameOf(vs[0].state, vs[0].netId, vs[0].name, forced);
      assert Selected(vs[0], reliable, forced) ==>
        Sends(vs, reliable, forced) == [f] + sent && Arrivals(vs, reliable, forced) == [Received(f)] + frames;
    }
  }

  predicate IsFrameOf(f: Frame, v: Sample, forced: bool) {
    && f.netId == v.netId && f.name == v.name && v.state.data <= f.data
    && f.forced == (v.state.changeForced || forced) && f.sequence == (v.state.sequence + 1) % 0x1_0000_0000
  }

  /**
   * In what arrives of a snapshot, a frame for a variable is there only if the variable has the
   * snapshot's reliability and is changed or forced, and carries its value and its next number;
   * there is one for each such variable, and no two are for the same.
   */
  lemma OncePerVariable(vs: seq<Sample>, reliable: bool, forced: bool)
    requires AllReady(vs) && DistinctNames(vs)
    ensures var frames := Arrivals(vs, reliable, forced);
      && (forall i, n :: 0 <= i < |vs| && 0 <= n < |frames| ==>
        frames[n].netId == vs[i].netId && frames[n].name == vs[i].name ==>
          && vs[i].reliable == reliable && (forced || vs[i].state.changed)
          && vs[i].state.data <= frames[n].data && frames[n].forced == (vs[i].state.changeForced || forced)
          && frames[n].sequence == (vs[i].state.sequence + 1) % 0x1_0000_0000)
      && (forall i :: 0 <= i < |vs| && vs[i].reliable == reliable && (forced || vs[i].state.changed) ==>
        exists n :: 0 <= n < |frames| && frames[n].netId == vs[i].netId && frames[n].name == vs[i].name)
      && (forall m, n :: 0 <= m < n < |frames| ==>
        frames[m].netId != frames[n].netId || frames[m].name != frames[n].name)
  {
    var at := ArrivedInOrder(vs, reliable, forced);
    OnceOf(vs, Arrivals(vs, reliable, forced), at, forced);
    hide *;
  }

  /** Numbered frames of different variables: each names its own variable alone. */
  lemma OnceOf(vs: seq<Sample>, frames: seq<Frame>, at: seq<nat>, forced: bool)
    requires DistinctNames(vs) && |at| == |frames| && forall m, n :: 0 <= m < n < |at| ==> at[m] < at[n]
    requires forall n :: 0 <= n < |at| ==> at[n] < |vs| && IsFrameOf(frames[n], vs[at[n]], forced)
    ensures forall i, n :: 0 <= i < |vs| && 0 <= n < |frames| ==>
      (frames[n].netId == vs[i].netId && frames[n].name == vs[i].name <==> at[n] == i)
    ensures forall m, n :: 0 <= m < n < |frames| ==>
      frames[m].netId != frames[n].netId || frames[m].name != frames[n].name
  {
    forall i, n | 0 <= i < |vs| && 0 <= n < |frames|
      ensures frames[n].netId == vs[i].netId && frames[n].name == vs[i].name <==> at[n] == i
    {
      SameVariable(vs, at[n], i);
    }
  }

  lemma SameVariable(vs: seq<Sample>, i: nat, j: nat)
    requires DistinctNames(vs) && i < |vs| && j < |vs|
    ensures vs[i].netId == vs[j].netId && vs[i].name == vs[j].name <==> i == j
  {
  }

  /** Which variable each arriving frame is of. */
  lemma ArrivedInOrder(vs: seq<Sample>, reliable: bool, forced: bool) returns (at: seq<nat>)
    requires AllReady(vs)
    ensures var frames := Arrivals(vs, reliable, forced);
      |at| == |frames| && forall m, n :: 0 <= m < n < |at| ==> at[m] < at[n]
    ensures forall i :: i in at <==> 0 <= i < |vs| && vs[i].reliable == reliable && (forced || vs[i].state.changed)
    ensures forall n :: 0 <= n < |at| ==> at[n] < |vs|
    ensures forall n :: 0 <= n < |at| ==> IsFrameOf(Arrivals(vs, reliable, forced)[n], vs[at[n]], forced)
  {
    at := SentInOrder(vs, reliable, forced);
    ArrivalsAreSent(vs, reliable, forced);
    hide Arrivals, Sends, AllReady, Extended;
  }

  // ---------------------------------------------------------------- one pass, and both

  /** One pass over the local variables, its packet, and what a receiver of the packet is handed. */
  method Deliver(running: bool, managers: seq<seq<NetObject>>, reliable: bool, forced: bool, sequence: uint32,
      client: bool)
    returns (frames: seq<Frame>)
    requires Distinct(WatchedBy(managers)) && AllReady(Samples(WatchedBy(managers)))
    requires |WatchedBy(managers)| < 0x1_0000
    modifies WatchedBy(managers)
    ensures forall v :: v in WatchedBy(managers) ==>
      !running || v.reliable != reliable || (!forced && !old(v.changed)) ==> v.Now() == old(v.Now())
    ensures running ==> forall v :: v in WatchedBy(managers) && v.reliable == reliable && (forced || old(v.changed)) ==>
      v.State() == old(v.State()).(changed := false, changeForced := false,
        sequence := (old(v.sequence) + 1) % 0x1_0000_0000)
    ensures frames == if running then old(Arrivals(Samples(WatchedBy(managers)), reliable, forced)) else []
  {
    hide WatchedBy, Sends, Handle, PacketFor, Arrivals, Delivered, AllReady, Distinct;
    ghost var before, pending := Samples(WatchedBy(managers)), Pending(running, managers, reliable, forced);
    ArrivalsAreSent(before, reliable, forced);
    ArrivalsAreDelivered(before, reliable, forced, client);
    PacketArrives(pending, sequence, client);
    var packet := TakeSnapshot([], running, managers, reliable, forced, sequence);
    assert [] + pending == pending;
    if packet == [] {
      return [];
    }
    var stopped;
    frames, stopped := HandleEntSnapshot(packet, client);
  }

  /** Which variables those frames are of. */
  method Pass(running: bool, managers: seq<seq<NetObject>>, reliable: bool, forced: bool, sequence: uint32,
      client: bool)
    returns (frames: seq<Frame>)
    requires Distinct(WatchedBy(managers)) && AllReady(Samples(WatchedBy(managers)))
    requires DistinctNames(Samples(WatchedBy(managers))) && |WatchedBy(managers)| < 0x1_0000
    modifies WatchedBy(managers)
    ensures forall v :: v in WatchedBy(managers) ==>
      !running || v.reliable != reliable || (!forced && !old(v.changed)) ==> v.Now() == old(v.Now())
    ensures running ==> forall v :: v in WatchedBy(managers) && v.reliable == reliable && (forced || old(v.changed)) ==>
      v.State() == old(v.State()).(changed := false, changeForced := false,
        sequence := (old(v.sequence) + 1) % 0x1_0000_0000)
    ensures forall v, n :: v in WatchedBy(managers) && 0 <= n < |frames| ==>
      frames[n].netId == v.netId && frames[n].name == v.name ==>
        && running && v.reliable == reliable && (forced || old(v.changed)) && v.data <= frames[n].data
        && frames[n].forced == (old(v.changeForced) || forced) && frames[n].sequence == v.sequence
    ensures running ==> forall v :: v in WatchedBy(managers) && v.reliable == reliable && (forced || old(v.changed)) ==>
      exists n :: 0 <= n < |frames| && frames[n].netId == v.netId && frames[n].name == v.name
    ensures forall m, n :: 0 <= m < n < |frames| ==>
      frames[m].netId != frames[n].netId || frames[m].name != frames[n].name
  {
    hide WatchedBy, Arrivals, AllReady, Distinct, DistinctNames;
    OncePerVariable(Samples(WatchedBy(managers)), reliable, forced);
    frames := Deliver(running, managers, reliable, forced, sequence, client);
  }

  lemma SameNames(before: seq<Sample>, after: seq<Sample>)
    requires |after| == |before| && AllReady(before) && DistinctNames(before)
    requires forall i :: 0 <= i < |before| ==>
      after[i] == before[i].(state := after[i].state) && |after[i].state.data| == |before[i].state.data|
    ensures AllReady(after) && DistinctNames(after)
  {
  }

  /**
   * A reliable pass and then an unreliable one, as every tick makes and, forced, the welcome of a
   * new player. Every local variable that is changed or forced has exactly one frame, with its value
   * and its next number, among those of its own reliability and none among the others; one that
   * is neither has none. After it no local variable is marked changed.
   */
  method SnapshotUpdate(running: bool, managers: seq<seq<NetObject>>, forced: bool, sequence: uint32, client: bool)
    returns (reliable: seq<Frame>, unreliable: seq<Frame>)
    requires Distinct(WatchedBy(managers)) && AllReady(Samples(WatchedBy(managers)))
    requires DistinctNames(Samples(WatchedBy(managers))) && |WatchedBy(managers)| < 0x1_0000
    modifies WatchedBy(managers)
    ensures forall v :: v in WatchedBy(managers) ==> !running || (!forced && !old(v.changed)) ==>
      v.Now() == old(v.Now())
    ensures running ==> forall v :: v in WatchedBy(managers) && (forced || old(v.changed)) ==>
      v.State() == old(v.State()).(changed := false, changeForced := false,
        sequence := (old(v.sequence) + 1) % 0x1_0000_0000)
    ensures forall v, n :: v in WatchedBy(managers) && 0 <= n < |reliable| ==>
      reliable[n].netId == v.netId && reliable[n].name == v.name ==>
        && running && v.reliable && (forced || old(v.changed)) && v.data <= reliable[n].data
        && reliable[n].forced == (old(v.changeForced) || forced) && reliable[n].sequence == v.sequence
    ensures forall v, n :: v in WatchedBy(managers) && 0 <= n < |unreliable| ==>
      unreliable[n].netId == v.netId && unreliable[n].name == v.name ==>
        && running && !v.reliable && (forced || old(v.changed)) && v.data <= unreliable[n].data
        && unreliable[n].forced == (old(v.changeForced) || forced) && unreliable[n].sequence == v.sequence
    ensures running ==> forall v :: v in WatchedBy(managers) && v.reliable && (forced || old(v.changed)) ==>
      exists n :: 0 <= n < |reliable| && reliable[n].netId == v.netId && reliable[n].name == v.name
    ensures running ==> forall v :: v in WatchedBy(managers) && !v.reliable && (forced || old(v.changed)) ==>
      exists n :: 0 <= n < |unreliable| && unreliable[n].netId == v.netId && unreliable[n].name == v.name
    ensures forall m, n :: 0 <= m < n < |reliable| ==>
      reliable[m].netId != reliable[n].netId || reliable[m].name != reliable[n].name
    ensures forall m, n :: 0 <= m < n < |unreliable| ==>
      unreliable[m].netId != unreliable[n].netId || unreliable[m].name != unreliable[n].name
  {
    hide WatchedBy, AllReady, Distinct, DistinctNames, Arrivals;
    ghost var vars := WatchedBy(managers);
    ghost var before := Samples(vars);
    reliable := Pass(running, managers, true, forced, sequence, client);
    SameNames(before, Samples(vars));
    unreliable := Pass(running, managers, false, forced, sequence, client);
  }

  // ---------------------------------------------------------------- a value on its way

  /** An accepted value is in the one frame the next snapshot puts on the stream, and the frame is forced. */
  method SetAndTake(v: NetVar, active: bool, value: seq<byte>, stream: SnapshotStream)
    requires stream.Valid() && Ready(v.Now()) && |value| == |v.data|
    modifies v, stream`parts
    ensures active ==> v.data == value
    ensures active && old(v.data) != value ==>
      && !v.changed && !v.changeForced && v.sequence == (old(v.sequence) + 1) % 0x1_0000_0000
      && stream.parts == old(stream.parts)
        + [Encode(Frame(0xDADADADA, v.netId, 512, v.sequence, true, v.name, value))]
  {
    hide Encode;
    v.Set(active, value);
    var _ := v.TakeVariableSnapshot(stream, false);
  }

  lemma LookupIs(views: seq<ObjectView>, k: nat, j: nat, id: uint32, name: seq<byte>)
    requires FitsAll(views) && k < |views| && views[k].netId == id && forall i :: 0 <= i < k ==> views[i].netId != id
    requires j < |views[k].vars| && views[k].vars[j].name == name
    requires forall i :: 0 <= i < j ==> views[k].vars[i].name != name
    ensures Lookup(views, id, name) == Some(Slot(views[k].local, views[k].peer, views[k].vars[j].state))
  {
    FirstIs(Ids(views), k, id);
    FirstIs(Names(views[k].vars), j, name);
    hide FirstAt;
  }

  /** The condition of an exchange, spelled out for the receiver's variable at a known place. */
  lemma ReachesIff(views: seq<ObjectView>, vs: seq<Sample>, reliable: bool, forced: bool, owner: Option<Peer>, i: nat,
      k: nat, j: nat)
    requires FitsAll(views) && AllReady(vs) && DistinctNames(vs) && i < |vs|
    requires vs[i].reliable == reliable && (forced || vs[i].state.changed)
    requires k < |views| && views[k].netId == vs[i].netId && forall n :: 0 <= n < k ==> views[n].netId != vs[i].netId
    requires j < |views[k].vars| && views[k].vars[j].name == vs[i].name
    requires forall n :: 0 <= n < j ==> views[k].vars[n].name != vs[i].name
    requires |views[k].vars[j].state.data| == |vs[i].state.data|
    ensures var frames, v, s := Arrivals(vs, reliable, forced), vs[i].state, views[k].vars[j].state;
      var after := UpdatedAll(views, frames, owner);
      && k < |after| && j < |after[k].vars|
      && (after[k].vars[j].state.data == v.data <==>
        || s.data == v.data
        || ((owner == None || views[k].peer == owner) && (forced || v.changeForced || !views[k].local) && !s.locked
          && (s.checkSequence ==> s.sequence <= (v.sequence + 1) % 0x1_0000_0000)))
  {
    var after := UpdatedAll(views, Arrivals(vs, reliable, forced), owner);
    MirrorsIff(views, vs, reliable, forced, owner, i);
    LookupIs(views, k, j, vs[i].netId, vs[i].name);
    UpdatedAllNames(views, Arrivals(vs, reliable, forced), owner);
    LookupIs(after, k, j, vs[i].netId, vs[i].name);
    hide Lookup, UpdatedAll, Arrivals, FitsAll, AllReady, DistinctNames;
  }

  lemma {:induction false} UpdatedAllNames(views: seq<ObjectView>, frames: seq<Frame>, owner: Option<Peer>)
    requires FitsAll(views) && FullSize(frames)
    ensures var after := UpdatedAll(views, frames, owner);
      Ids(after) == Ids(views) && forall k :: 0 <= k < |views| ==> Names(after[k].vars) == Names(views[k].vars)
    decreases |frames|
  {
    hide FitsAll, Receive;
    if frames != [] {
      UpdatedAllNames(Updated(views, frames[0], owner), frames[1..], owner);
    }
  }

  lemma PlaceOf(objects: seq<NetObject>, k: nat, j: nat)
    requires k < |objects| && j < |objects[k].vars|
    ensures objects[k].vars[j] in Owned(objects)
    ensures var o := Views(objects)[k];
      && o.netId == objects[k].netId && o.local == objects[k].local && o.peer == objects[k].peer
      && |o.vars| == |objects[k].vars| && o.vars[j].state == objects[k].vars[j].State()
      && forall n :: 0 <= n < |o.vars| ==> o.vars[n].name == objects[k].vars[n].name
  {
  }

  lemma FewPending(vs: seq<Sample>, reliable: bool, forced: bool)
    requires AllReady(vs)
    ensures |Sends(vs, reliable, forced)| <= |vs|
  {
    ArrivalsAreSent(vs, reliable, forced);
  }

  /**
   * After an exchange, the value of a variable that was sent is held by the receiver's variable of
   * that number and name if and only if it was held there before, or the sender is allowed to update
   * the object, the frame is forced or the object not local, and the variable is unlocked and has no
   * higher number to check against.
   */
  method SendValue(v: NetVar, managers: seq<seq<NetObject>>, forced: bool, sequence: uint32,
      receivers: seq<NetObject>, owner: Option<Peer>, ghost k: nat, ghost j: nat)
    requires Distinct(WatchedBy(managers)) && AllReady(Samples(WatchedBy(managers)))
    requires DistinctNames(Samples(WatchedBy(managers))) && |WatchedBy(managers)| < 0x1_0000
    requires Separate(receivers) && FitsAll(Views(receivers))
    requires forall w :: w in WatchedBy(managers) ==> w !in Owned(receivers)
    requires v in WatchedBy(managers) && (forced || v.changed)
    requires k < |receivers| && receivers[k].netId == v.netId
    requires forall n :: 0 <= n < k ==> receivers[n].netId != v.netId
    requires j < |receivers[k].vars| && receivers[k].vars[j].name == v.name
    requires forall n :: 0 <= n < j ==> receivers[k].vars[n].name != v.name
    requires |receivers[k].vars[j].data| == |v.data|
    modifies WatchedBy(managers), Owned(receivers)
    ensures v.State() == old(v.State()).(changed := false, changeForced := false, sequence := v.sequence)
      && v.sequence == (old(v.sequence) + 1) % 0x1_0000_0000
    ensures receivers[k].vars[j].data == v.data <==>
      || old(receivers[k].vars[j].data) == v.data
      || ((owner == None || receivers[k].peer == owner) && (forced || old(v.changeForced) || !receivers[k].local)
        && !old(receivers[k].vars[j].locked)
        && (old(receivers[k].vars[j].checkSequence) ==> old(receivers[k].vars[j].sequence) <= v.sequence))
  {
    hide WatchedBy, AllReady, Distinct, DistinctNames, Separate, FitsAll, Arrivals, UpdatedAll, Owned, Sends;
    ghost var vars, views := WatchedBy(managers), Views(receivers);
    ghost var before := Samples(vars);
    ghost var i :| 0 <= i < |vars| && vars[i] == v;
    PlaceOf(receivers, k, j);
    FewPending(before, v.reliable, forced);
    ReachesIff(views, before, v.reliable, forced, owner, i, k, j);
    Exchange(true, managers, v.reliable, forced, sequence, receivers, owner);
    PlaceOf(receivers, k, j);
  }

  /**
   * A value set by its type, and the exchange of the next pass. Once accepted it reaches the
   * receiver's variable, a local object's included, under the remaining conditions.
   */
  method SetAndSend(v: NetVar, value: seq<byte>, managers: seq<seq<NetObject>>, sequence: uint32,
      receivers: seq<NetObject>, owner: Option<Peer>, ghost k: nat, ghost j: nat)
    requires Distinct(WatchedBy(managers)) && AllReady(Samples(WatchedBy(managers)))
    requires DistinctNames(Samples(WatchedBy(managers))) && |WatchedBy(managers)| < 0x1_0000
    requires Separate(receivers) && FitsAll(Views(receivers))
    requires forall w :: w in WatchedBy(managers) ==> w !in Owned(receivers)
    requires v in WatchedBy(managers) && |value| == |v.data|
    requires v.data != value
    requires k < |receivers| && receivers[k].netId == v.netId
    requires forall n :: 0 <= n < k ==> receivers[n].netId != v.netId
    requires j < |receivers[k].vars| && receivers[k].vars[j].name == v.name
    requires forall n :: 0 <= n < j ==> receivers[k].vars[n].name != v.name
    requires |receivers[k].vars[j].data| == |v.data|
    modifies WatchedBy(managers), Owned(receivers)
    ensures v.data == value && !v.changed && v.sequence == (old(v.sequence) + 1) % 0x1_0000_0000
    ensures receivers[k].vars[j].data == value <==>
      || old(receivers[k].vars[j].data) == value
      || ((owner == None || receivers[k].peer == owner) && !old(receivers[k].vars[j].locked)
        && (old(receivers[k].vars[j].checkSequence) ==> old(receivers[k].vars[j].sequence) <= v.sequence))
  {
    hide WatchedBy, AllReady, Distinct, DistinctNames, Separate, FitsAll;
    ghost var before := Samples(WatchedBy(managers));
    PlaceOf(receivers, k, j);
    v.Set(true, value);
    SameNames(before, Samples(WatchedBy(managers)));
    SendValue(v, managers, false, sequence, receivers, owner, k, j);
  }
}
