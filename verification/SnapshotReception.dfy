/** Applying received data frames to objects, and what a whole exchange leaves on the receiver. */
module SnapshotReception {
  import opened NetTypes
  import opened SnapshotFrame
  import opened SnapshotPacket
  import opened NetVariable
  import opened SnapshotSystem
  import opened SnapshotTransfer

  // ---------------------------------------------------------------- values

  /** An object at a moment. */
  datatype ObjectView = ObjectView(netId: uint32, local: bool, peer: Option<Peer>, vars: seq<Sample>)

  function Ids(views: seq<ObjectView>): (ids: seq<uint32>)
    ensures |ids| == |views| && forall i :: 0 <= i < |ids| ==> ids[i] == views[i].netId
  {
    seq(|views|, i requires 0 <= i < |views| => views[i].netId)
  }

  function Names(vars: seq<Sample>): (names: seq<seq<byte>>)
    ensures |names| == |vars| && forall i :: 0 <= i < |names| ==> names[i] == vars[i].name
  {
    seq(|vars|, i requires 0 <= i < |vars| => vars[i].name)
  }

  predicate FitsData(vars: seq<Sample>) {
    forall j :: 0 <= j < |vars| ==> |vars[j].state.data| < MAX_DATA
  }

  predicate FitsAll(views: seq<ObjectView>) {
    forall k :: 0 <= k < |views| ==> FitsData(views[k].vars)
  }

  /** The first variable with the frame's name receives it. */
  function UpdatedVars(vars: seq<Sample>, f: Frame, local: bool): (r: seq<Sample>)
    requires FitsData(vars) && |f.data| == MAX_DATA
    ensures |r| == |vars| && FitsData(r) && Names(r) == Names(vars)
  {
    var j := FirstAt(Names(vars), f.name);
    if j == |vars| then vars else vars[j := vars[j].(state := Receive(vars[j].state, f, local))]
  }

  predicate Permitted(peer: Option<Peer>, owner: Option<Peer>) {
    owner == None || peer == owner
  }

  function UpdatedObject(o: ObjectView, f: Frame, owner: Option<Peer>): (r: ObjectView)
    requires FitsData(o.vars) && |f.data| == MAX_DATA
    ensures FitsData(r.vars) && r.netId == o.netId
  {
    if Permitted(o.peer, owner) then o.(vars := UpdatedVars(o.vars, f, o.local)) else o
  }

  /** The first object with the frame's number is the one that is updated. */
  function Updated(views: seq<ObjectView>, f: Frame, owner: Option<Peer>): (r: seq<ObjectView>)
    requires FitsAll(views) && |f.data| == MAX_DATA
    ensures |r| == |views| && FitsAll(r) && Ids(r) == Ids(views)
    ensures forall k :: 0 <= k < |views| ==> r[k].peer == views[k].peer
  {
    var k := FirstAt(Ids(views), f.netId);
    if k == |views| then views else views[k := UpdatedObject(views[k], f, owner)]
  }

  predicate FullSize(frames: seq<Frame>) {
    forall i :: 0 <= i < |frames| ==> |frames[i].data| == MAX_DATA
  }

  function UpdatedAll(views: seq<ObjectView>, frames: seq<Frame>, owner: Option<Peer>): (r: seq<ObjectView>)
    requires FitsAll(views) && FullSize(frames)
    ensures |r| == |views| && FitsAll(r)
    ensures forall k :: 0 <= k < |views| ==> r[k].peer == views[k].peer
    decreases |frames|
  {
    if frames == [] then views else UpdatedAll(Updated(views, frames[0], owner), frames[1..], owner)
  }

  lemma {:induction false} UpdatedAllSnoc(views: seq<ObjectView>, frames: seq<Frame>, f: Frame, owner: Option<Peer>)
    requires FitsAll(views) && FullSize(frames) && |f.data| == MAX_DATA
    ensures UpdatedAll(views, frames + [f], owner) == Updated(UpdatedAll(views, frames, owner), f, owner)
    decreases |frames|
  {
    hide Updated, FitsAll;
    if frames == [] {
      assert (frames + [f])[1..] == [];
      assert UpdatedAll(Updated(views, f, owner), [], owner) == Updated(views, f, owner);
    } else {
      assert (frames + [f])[1..] == frames[1..] + [f];
      UpdatedAllSnoc(Updated(views, frames[0], owner), frames[1..], f, owner);
    }
  }

  /** Whatever a peer sends, it leaves every object of another peer, or of none, as it was. */
  lemma {:induction false} OnlyOwnObjects(views: seq<ObjectView>, frames: seq<Frame>, sender: Peer)
    requires FitsAll(views) && FullSize(frames)
    ensures forall k :: 0 <= k < |views| && views[k].peer != Some(sender) ==>
      UpdatedAll(views, frames, Some(sender))[k] == views[k]
    decreases |frames|
  {
    hide FitsAll, UpdatedVars;
    if frames != [] {
      var next := Updated(views, frames[0], Some(sender));
      OnlyOwnObjects(next, frames[1..], sender);
      assert forall k :: 0 <= k < |views| && views[k].peer != Some(sender) ==> next[k] == views[k];
    }
  }

  lemma OthersOf(views: seq<ObjectView>, f: Frame, owner: Option<Peer>)
    requires FitsAll(views) && |f.data| == MAX_DATA
    ensures owner != None ==>
      forall k :: 0 <= k < |views| && views[k].peer != owner ==> Updated(views, f, owner)[k] == views[k]
  {
    hide UpdatedVars;
  }

  /**
   * What one frame does to the first variable of its name, on the first object of its number:
   * nothing when it comes from a peer that does not own the object, when it is not forced and the
   * object is local, or when the variable checks numbers and has a higher one. Otherwise the number
   * is taken, and with it the value unless the variable is locked. Nothing else changes either way.
   */
  lemma FrameLands(views: seq<ObjectView>, f: Frame, owner: Option<Peer>, k: nat, j: nat)
    requires FitsAll(views) && |f.data| == MAX_DATA
    requires k < |views| && views[k].netId == f.netId && forall i :: 0 <= i < k ==> views[i].netId != f.netId
    requires j < |views[k].vars| && views[k].vars[j].name == f.name
    requires forall i :: 0 <= i < j ==> views[k].vars[i].name != f.name
    ensures var o, v, s := views[k], views[k].vars[j], views[k].vars[j].state;
      var kept := (owner != None && o.peer != owner) || (o.local && !f.forced)
        || (s.checkSequence && f.sequence < s.sequence);
      var t := if kept then s else if s.locked then s.(sequence := f.sequence)
        else s.(sequence := f.sequence, data := f.data[..|s.data|], changed := true,
          changes := (s.changes + 1) % 0x1_0000_0000);
      Updated(views, f, owner) == views[k := o.(vars := o.vars[j := v.(state := t)])]
  {
    var o, s := views[k], views[k].vars[j].state;
    FirstIs(Ids(views), k, f.netId);
    FirstIs(Names(o.vars), j, f.name);
    WholeValue(f.data, |s.data|);
    hide FitsAll, Ids, Names, FirstAt;
    assert views[k := o] == views && o.vars[j := o.vars[j]] == o.vars;
  }

  lemma WholeValue(data: seq<byte>, n: nat)
    requires n <= |data|
    ensures forall was: seq<byte> :: |was| == n ==> data[..n] + was[n..] == data[..n]
  {
  }

  lemma {:induction false} FirstIs<T>(s: seq<T>, k: nat, x: T)
    requires k < |s| && s[k] == x && forall i :: 0 <= i < k ==> s[i] != x
    ensures FirstAt(s, x) == k
  {
  }

  /** A frame that names nothing the receiver has does nothing. */
  lemma FrameLost(views: seq<ObjectView>, f: Frame, owner: Option<Peer>)
    requires FitsAll(views) && |f.data| == MAX_DATA
    requires forall k :: 0 <= k < |views| && views[k].netId == f.netId ==>
      (exists i :: 0 <= i < k && views[i].netId == f.netId)
      || forall j :: 0 <= j < |views[k].vars| ==> views[k].vars[j].name != f.name
    ensures Updated(views, f, owner) == views
  {
  }

  // ---------------------------------------------------------------- objects

  ghost function View(o: NetObject): ObjectView
    reads o.vars
  {
    ObjectView(o.netId, o.local, o.peer, Samples(o.vars))
  }

  ghost function Owned(objects: seq<NetObject>): set<NetVar> {
    set k, j | 0 <= k < |objects| && 0 <= j < |objects[k].vars| :: objects[k].vars[j]
  }

  ghost function Views(objects: seq<NetObject>): (views: seq<ObjectView>)
    reads Owned(objects)
    ensures |views| == |objects| && forall k :: 0 <= k < |objects| ==> views[k] == View(objects[k])
  {
    seq(|objects|, k requires 0 <= k < |objects| reads Owned(objects) =>
      assert forall v :: v in objects[k].vars ==> v in Owned(objects);
      View(objects[k]))
  }

  /** No variable belongs to two objects, or twice to one. */
  predicate Separate(objects: seq<NetObject>) {
    forall k, j, k', j' ::
      (0 <= k < |objects| && 0 <= j < |objects[k].vars|) && (0 <= k' < |objects| && 0 <= j' < |objects[k'].vars|) ==>
      objects[k].vars[j] == objects[k'].vars[j'] ==> k == k' && j == j'
  }

  method GetByNetID(objects: seq<NetObject>, id: uint32) returns (found: Option<NetObject>)
    ensures var k := FirstAt(Ids(Views(objects)), id); found == if k < |objects| then Some(objects[k]) else None
    ensures found.Some? ==> found.value in objects && found.value.netId == id
    ensures forall k :: 0 <= k < |objects| && objects[k].netId == id ==>
      (forall i :: 0 <= i < k ==> objects[i].netId != id) ==> found == Some(objects[k])
  {
    ghost var k := FirstAt(Ids(Views(objects)), id);
    var i := 0;
    while i < |objects|
      invariant 0 <= i <= |objects| && i <= k
    {
      if objects[i].netId == id {
        return Some(objects[i]);
      }
      i := i + 1;
    }
    found := None;
  }

  method FindVariable(vars: seq<NetVar>, name: seq<byte>) returns (j: nat)
    ensures j == FirstAt(Names(Samples(vars)), name)
    ensures j <= |vars| && (j < |vars| ==> vars[j].name == name) && forall i :: 0 <= i < j ==> vars[i].name != name
  {
    j := 0;
    ghost var first := FirstAt(Names(Samples(vars)), name);
    while j < |vars|
      invariant 0 <= j <= |vars| && j <= first
    {
      if vars[j].name == name {
        return;
      }
      j := j + 1;
    }
  }

  /** Some object's variable takes a frame. */
  method UpdateVariable(objects: seq<NetObject>, ghost k: nat, target: NetObject, j: nat, f: Frame)
    requires Separate(objects) && FitsAll(Views(objects)) && |f.data| == MAX_DATA
    requires k < |objects| && objects[k] == target && j < |target.vars|
    modifies Owned(objects)
    ensures var before := old(Views(objects));
      var taken := before[k].vars[j].(state := Receive(before[k].vars[j].state, f, target.local));
      Views(objects) == before[k := before[k].(vars := before[k].vars[j := taken])]
  {
    hide Receive;
    ghost var before := Views(objects);
    assert target.vars[j] in Owned(objects);
    assert Samples(target.vars)[j].state == before[k].vars[j].state;
    target.vars[j].Apply(f, target.local);
    OneChanged(objects, before, k, j, Receive(before[k].vars[j].state, f, target.local));
  }

  lemma WhereUpdated(views: seq<ObjectView>, f: Frame, owner: Option<Peer>)
    requires FitsAll(views) && |f.data| == MAX_DATA
    ensures var k := FirstAt(Ids(views), f.netId);
      if k < |views| && Permitted(views[k].peer, owner) && FirstAt(Names(views[k].vars), f.name) < |views[k].vars|
      then
        var j := FirstAt(Names(views[k].vars), f.name);
        var taken := views[k].vars[j].(state := Receive(views[k].vars[j].state, f, views[k].local));
        Updated(views, f, owner) == views[k := views[k].(vars := views[k].vars[j := taken])]
      else Updated(views, f, owner) == views
  {
    hide Receive;
  }

  /** The reception of a data frame, from a peer that must own the object or from the server. */
  method ReadEntityUpdate(objects: seq<NetObject>, f: Frame, owner: Option<Peer>)
    requires Separate(objects) && FitsAll(Views(objects)) && |f.data| == MAX_DATA
    modifies Owned(objects)
    ensures Views(objects) == Updated(old(Views(objects)), f, owner)
    ensures owner != None ==> forall o :: o in objects && o.peer != owner ==> View(o) == old(View(o))
  {
    hide Receive, Updated;
    ghost var before := Views(objects);
    ghost var k := FirstAt(Ids(before), f.netId);
    WhereUpdated(before, f, owner);
    OthersOf(before, f, owner);
    var found := GetByNetID(objects, f.netId);
    if found == None {
      return;
    }
    var target := found.value;
    assert before[k] == View(target);
    if owner != None && target.peer != owner {
      return;
    }
    var j := FindVariable(target.vars, f.name);
    if j == |target.vars| {
      return;
    }
    UpdateVariable(objects, k, target, j, f);
  }

  /** One variable changed, so one place of the views did. */
  lemma OneChanged(objects: seq<NetObject>, before: seq<ObjectView>, k: nat, j: nat, state: VarState)
    requires |before| == |objects| && k < |objects| && j < |objects[k].vars| && objects[k].vars[j].State() == state
    requires forall i :: 0 <= i < |objects| ==>
      before[i].(vars := []) == ObjectView(objects[i].netId, objects[i].local, objects[i].peer, [])
        && |before[i].vars| == |objects[i].vars|
    requires before[k].vars[j] == objects[k].vars[j].Now().(state := before[k].vars[j].state)
    requires forall i, n :: 0 <= i < |objects| && 0 <= n < |objects[i].vars| && !(i == k && n == j) ==>
      objects[i].vars[n].Now() == before[i].vars[n]
    ensures Views(objects) == before[k := before[k].(vars := before[k].vars[j := before[k].vars[j].(state := state)])]
  {
    forall i | 0 <= i < |objects|
      ensures Samples(objects[i].vars) == if i == k then before[k].vars[j := before[k].vars[j].(state := state)]
        else before[i].vars
    {
    }
  }

  /** The handlers' effect: frame after frame. */
  method ApplyFrames(objects: seq<NetObject>, frames: seq<Frame>, owner: Option<Peer>)
    requires Separate(objects) && FitsAll(Views(objects)) && FullSize(frames)
    modifies Owned(objects)
    ensures Views(objects) == UpdatedAll(old(Views(objects)), frames, owner)
    ensures owner != None ==> forall o :: o in objects && o.peer != owner ==> View(o) == old(View(o))
  {
    hide Updated, FitsAll, Separate;
    ghost var before := Views(objects);
    var i := 0;
    assert UpdatedAll(before, frames[..0], owner) == before;
    while i < |frames|
      invariant 0 <= i <= |frames|
      invariant Views(objects) == UpdatedAll(before, frames[..i], owner)
    {
      assert frames[..i + 1] == frames[..i] + [frames[i]];
      UpdatedAllSnoc(before, frames[..i], frames[i], owner);
      ReadEntityUpdate(objects, frames[i], owner);
      i := i + 1;
    }
    assert frames[..i] == frames;
    if owner != None {
      OnlyOwnObjects(before, frames, owner.value);
    }
  }

  // ---------------------------------------------------------------- one variable among all

  /** What a receiver holds under a number and a name. */
  datatype Slot = Slot(local: bool, peer: Option<Peer>, state: VarState)

  function Lookup(views: seq<ObjectView>, id: uint32, name: seq<byte>): (slot: Option<Slot>)
    requires FitsAll(views)
    ensures slot.Some? ==> |slot.value.state.data| < MAX_DATA
  {
    var k := FirstAt(Ids(views), id);
    if k == |views| then None
    else
      var j := FirstAt(Names(views[k].vars), name);
      if j == |views[k].vars| then None else Some(Slot(views[k].local, views[k].peer, views[k].vars[j].state))
  }

  function Reception(slot: Option<Slot>, f: Frame, owner: Option<Peer>): Option<Slot>
    requires slot.Some? ==> |slot.value.state.data| <= |f.data|
  {
    if slot.Some? && Permitted(slot.value.peer, owner)
      then Some(slot.value.(state := Receive(slot.value.state, f, slot.value.local)))
    else slot
  }

  /** A frame changes what it names, and nothing else. */
  lemma UpdatedLookup(views: seq<ObjectView>, f: Frame, owner: Option<Peer>, id: uint32, name: seq<byte>)
    requires FitsAll(views) && |f.data| == MAX_DATA
    ensures Lookup(Updated(views, f, owner), id, name)
        == if id == f.netId && name == f.name then Reception(Lookup(views, id, name), f, owner)
          else Lookup(views, id, name)
  {
    hide Receive;
    var after := Updated(views, f, owner);
    var k := FirstAt(Ids(views), id);
    assert k == FirstAt(Ids(after), id);
    if k < |views| {
      assert Names(after[k].vars) == Names(views[k].vars);
    }
  }

  // ---------------------------------------------------------------- a snapshot's frames

  predicate DistinctNames(vs: seq<Sample>) {
    forall i, j :: 0 <= i < j < |vs| ==> (vs[i].netId, vs[i].name) != (vs[j].netId, vs[j].name)
  }

  /** The frames of a snapshot, as received: data frames only, so all of them on either side. */
  function Arrivals(vs: seq<Sample>, reliable: bool, forced: bool): (frames: seq<Frame>)
    requires AllReady(vs)
    ensures FullSize(frames)
  {
    if vs == [] then []
    else
      (if Selected(vs[0], reliable, forced) then [Received(FrameOf(vs[0].state, vs[0].netId, vs[0].name, forced))]
        else [])
      + Arrivals(vs[1..], reliable, forced)
  }

  lemma {:induction false} ArrivalsAreDelivered(vs: seq<Sample>, reliable: bool, forced: bool, client: bool)
    requires AllReady(vs)
    ensures Delivered(Sends(vs, reliable, forced), client) == Arrivals(vs, reliable, forced)
  {
    if vs == [] {
    } else {
      ArrivalsAreDelivered(vs[1..], reliable, forced, client);
      var more := Sends(vs[1..], reliable, forced);
      if Selected(vs[0], reliable, forced) {
        assert Sends(vs, reliable, forced)[1..] == more;
      } else {
        assert Sends(vs, reliable, forced) == more;
      }
    }
  }

  /** After a snapshot's frames, whatever none of them names is as before. */
  lemma {:induction false} OthersStay(views: seq<ObjectView>, vs: seq<Sample>, reliable: bool, forced: bool,
      owner: Option<Peer>,
      id: uint32, name: seq<byte>)
    requires FitsAll(views) && AllReady(vs)
    requires forall i :: 0 <= i < |vs| ==> (vs[i].netId, vs[i].name) != (id, name)
    ensures Lookup(UpdatedAll(views, Arrivals(vs, reliable, forced), owner), id, name) == Lookup(views, id, name)
    decreases |vs|
  {
    hide Lookup, Updated, FitsAll, Receive, Extended;
    if vs == [] {
    } else if Selected(vs[0], reliable, forced) {
      var f := Received(FrameOf(vs[0].state, vs[0].netId, vs[0].name, forced));
      assert f.netId == vs[0].netId && f.name == vs[0].name;
      UpdatedLookup(views, f, owner, id, name);
      OthersStay(Updated(views, f, owner), vs[1..], reliable, forced, owner, id, name);
      assert Arrivals(vs, reliable, forced)[1..] == Arrivals(vs[1..], reliable, forced);
    } else {
      OthersStay(views, vs[1..], reliable, forced, owner, id, name);
      assert Arrivals(vs, reliable, forced) == Arrivals(vs[1..], reliable, forced);
    }
  }

  /** After a snapshot's frames, each variable has received exactly its own frame, if it was sent one. */
  lemma {:induction false} EachItsOwn(views: seq<ObjectView>, vs: seq<Sample>, reliable: bool, forced: bool,
      owner: Option<Peer>, i: nat)
    requires FitsAll(views) && AllReady(vs) && DistinctNames(vs) && i < |vs|
    ensures Lookup(UpdatedAll(views, Arrivals(vs, reliable, forced), owner), vs[i].netId, vs[i].name)
        == if Selected(vs[i], reliable, forced)
           then Reception(Lookup(views, vs[i].netId, vs[i].name),
             Received(FrameOf(vs[i].state, vs[i].netId, vs[i].name, forced)), owner)
           else Lookup(views, vs[i].netId, vs[i].name)
    decreases |vs|
  {
    hide Lookup, Updated, FitsAll, Receive, Extended;
    var next := views;
    if Selected(vs[0], reliable, forced) {
      var f := Received(FrameOf(vs[0].state, vs[0].netId, vs[0].name, forced));
      assert f.netId == vs[0].netId && f.name == vs[0].name;
      UpdatedLookup(views, f, owner, vs[i].netId, vs[i].name);
      next := Updated(views, f, owner);
      assert Arrivals(vs, reliable, forced)[1..] == Arrivals(vs[1..], reliable, forced);
    } else {
      assert Arrivals(vs, reliable, forced) == Arrivals(vs[1..], reliable, forced);
    }
    if i == 0 {
      OthersStay(next, vs[1..], reliable, forced, owner, vs[0].netId, vs[0].name);
    } else {
      EachItsOwn(next, vs[1..], reliable, forced, owner, i - 1);
    }
  }

  // ---------------------------------------------------------------- synchronisation

  /** The receiver holds the sender's value. */
  predicate Mirrors(views: seq<ObjectView>, v: Sample)
    requires FitsAll(views)
  {
    var slot := Lookup(views, v.netId, v.name);
    slot.Some? && slot.value.state.data == v.state.data
  }

  /** The receiver lets the frame through: ownership, the force flag, the sequence check, the lock. */
  predicate Accepts(slot: Slot, f: Frame, owner: Option<Peer>) {
    && Permitted(slot.peer, owner)
    && (f.forced || !slot.local)
    && CheckSequence(slot.state, f.sequence)
    && !slot.state.locked
  }

  /**
   * After an exchange the receiver holds a variable's value if and only if it held it before, or
   * the variable was sent and the receiver let its frame through.
   */
  lemma MirrorsIff(views: seq<ObjectView>, vs: seq<Sample>, reliable: bool, forced: bool, owner: Option<Peer>, i: nat)
    requires FitsAll(views) && AllReady(vs) && DistinctNames(vs) && i < |vs|
    requires var slot := Lookup(views, vs[i].netId, vs[i].name);
      slot.Some? && |slot.value.state.data| == |vs[i].state.data|
    ensures var v := vs[i];
      Mirrors(UpdatedAll(views, Arrivals(vs, reliable, forced), owner), After(v, reliable, forced))
      <==> Mirrors(views, v)
           || (Selected(v, reliable, forced)
               && Accepts(Lookup(views, v.netId, v.name).value, FrameOf(v.state, v.netId, v.name, forced), owner))
  {
    EachItsOwn(views, vs, reliable, forced, owner, i);
    hide Lookup, UpdatedAll, Arrivals, FitsAll, AllReady, DistinctNames;
    var v := vs[i];
    var f := FrameOf(v.state, v.netId, v.name, forced);
    assert Extended(v.state.data)[..|v.state.data|] == v.state.data;
    var slot := Lookup(views, v.netId, v.name).value;
    assert Extended(v.state.data)[..|v.state.data|] + slot.state.data[|v.state.data|..] == v.state.data;
  }

  /**
   * A sender's snapshot, its packet, and a receiver that handles it: with fewer than 65536
   * frames the receiver's objects end up as if each frame had been handed to them in order.
   */
  method Exchange(running: bool, managers: seq<seq<NetObject>>, reliable: bool, forced: bool, sequence: uint32,
      receivers: seq<NetObject>, owner: Option<Peer>)
    requires Distinct(WatchedBy(managers)) && AllReady(Samples(WatchedBy(managers)))
    requires |Pending(running, managers, reliable, forced)| < 0x1_0000
    requires Separate(receivers) && FitsAll(Views(receivers))
    requires forall v :: v in WatchedBy(managers) ==> v !in Owned(receivers)
    modifies WatchedBy(managers), Owned(receivers)
    ensures forall v :: v in WatchedBy(managers) ==>
      v.Now() == if running then After(old(v.Now()), reliable, forced) else old(v.Now())
    ensures Views(receivers)
      == UpdatedAll(old(Views(receivers)),
        if running then old(Arrivals(Samples(WatchedBy(managers)), reliable, forced)) else [], owner)
    ensures owner != None ==> forall o :: o in receivers && o.peer != owner ==> View(o) == old(View(o))
  {
    hide WatchedBy, After, Separate, FitsAll, Sends, UpdatedAll, Handle, PacketFor;
    ghost var vars := WatchedBy(managers);
    ghost var pending, before, views := Pending(running, managers, reliable, forced), Samples(vars), Views(receivers);
    var packet := TakeSnapshot([], running, managers, reliable, forced, sequence);
    assert [] + pending == pending;
    ArrivalsAreDelivered(before, reliable, forced, owner == None);
    PacketArrives(pending, sequence, owner == None);
    NothingUpdates(views, owner);
    if packet == [] {
      return;
    }
    var frames, stopped := HandleEntSnapshot(packet, owner == None);
    ApplyFrames(receivers, frames, owner);
  }

  lemma NothingUpdates(views: seq<ObjectView>, owner: Option<Peer>)
    requires FitsAll(views)
    ensures UpdatedAll(views, [], owner) == views
  {
  }

  lemma PacketArrives(frames: seq<Frame>, sequence: uint32, client: bool)
    requires AllWellFormed(frames) && |frames| < 0x1_0000 && forall i :: 0 <= i < |frames| ==> Proper(frames[i])
    ensures PacketFor(frames, sequence) == [] <==> frames == []
    ensures frames != [] ==> Handle(PacketFor(frames, sequence), client) == Outcome(Delivered(frames, client), None)
    ensures Delivered([], client) == []
  {
    hide Handle, Delivered, Concat, EncodeAll, Packet, Proper, AllWellFormed;
    NoFrames(client);
    if frames != [] {
      SnapshotArrivesIff(frames, sequence, client);
      PacketNotEmpty(frames, sequence);
    }
  }

  lemma PacketNotEmpty(frames: seq<Frame>, sequence: uint32)
    requires AllWellFormed(frames)
    ensures Packet(frames, sequence) != []
  {
    hide EncodeAll, Longest, PadAll, Concat, HeaderBytes;
  }

  lemma NoFrames(client: bool)
    ensures Concat(EncodeAll([])) == [] && Delivered([], client) == []
  {
  }
}
