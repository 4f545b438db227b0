/** Taking snapshots of an instance's objects into one packet, and applying received frames. */
module SnapshotSystem {
  import opened NetTypes
  import opened SnapshotFrame
  import opened SnapshotEntry
  import opened SnapshotPacket
  import opened NetVariable

  /** A variable at a moment: what does not change about it, and its state. */
  datatype Sample = Sample(netId: uint32, name: seq<byte>, reliable: bool, state: VarState)

  /** Names that fit an entry, values smaller than its buffer. */
  predicate Ready(v: Sample) {
    |v.name| <= MAX_NAME - 2 && 0 !in v.name && |v.state.data| < MAX_DATA
  }

  predicate AllReady(vs: seq<Sample>) {
    forall i :: 0 <= i < |vs| ==> Ready(vs[i])
  }

  predicate Selected(v: Sample, reliable: bool, forced: bool) {
    v.reliable == reliable && Takes(v.state, forced)
  }

  /** The frames a snapshot of some variables sends. */
  function Sends(vs: seq<Sample>, reliable: bool, forced: bool): (frames: seq<Frame>)
    requires AllReady(vs)
    ensures AllWellFormed(frames) && AllKnown(frames)
    ensures forall i :: 0 <= i < |frames| ==> frames[i].kind == FRAME_DATA && frames[i].controller == 512
  {
    if vs == [] then []
    else
      (if Selected(vs[0], reliable, forced) then [FrameOf(vs[0].state, vs[0].netId, vs[0].name, forced)] else [])
      + Sends(vs[1..], reliable, forced)
  }

  function After(v: Sample, reliable: bool, forced: bool): Sample {
    if v.reliable == reliable then v.(state := Snapshot(v.state, forced)) else v
  }

  lemma {:induction false} SelectedInOrder(vs: seq<Sample>, reliable: bool, forced: bool) returns (at: seq<nat>)
    requires AllReady(vs)
    ensures |at| == |Sends(vs, reliable, forced)| && forall m, n :: 0 <= m < n < |at| ==> at[m] < at[n]
    ensures forall n :: 0 <= n < |at| ==> at[n] < |vs| && Selected(vs[at[n]], reliable, forced)
    ensures forall n :: 0 <= n < |at| ==>
      Sends(vs, reliable, forced)[n] == FrameOf(vs[at[n]].state, vs[at[n]].netId, vs[at[n]].name, forced)
    ensures forall i :: 0 <= i < |vs| && Selected(vs[i], reliable, forced) ==> i in at
  {
    hide Selected, FrameOf, Ready, AllWellFormed, AllKnown;
    at := [];
    if vs != [] {
      var n := |vs| - 1;
      var m := SelectedInOrder(vs[..n], reliable, forced);
      SendsLast(vs, n, reliable, forced);
      hide Sends;
      assert forall i :: 0 <= i < n ==> vs[..n][i] == vs[i];
      at := m + if Selected(vs[n], reliable, forced) then [n] else [];
      assert Selected(vs[n], reliable, forced) ==> n == at[|m|];
      assert forall i :: i in m ==> i in at;
    }
  }

  /**
   * The frames of a snapshot are those of the variables of its reliability that are changed or
   * forced, one for each, in their order, with the next number and the value.
   */
  lemma SentInOrder(vs: seq<Sample>, reliable: bool, forced: bool) returns (at: seq<nat>)
    requires AllReady(vs)
    ensures |at| == |Sends(vs, reliable, forced)| && forall m, n :: 0 <= m < n < |at| ==> at[m] < at[n]
    ensures forall n :: 0 <= n < |at| ==>
      at[n] < |vs| && vs[at[n]].reliable == reliable && (forced || vs[at[n]].state.changed)
    ensures forall n :: 0 <= n < |at| ==>
      Sends(vs, reliable, forced)[n] == Frame(0xDADADADA, vs[at[n]].netId, 512,
        (vs[at[n]].state.sequence + 1) % 0x1_0000_0000,
        vs[at[n]].state.changeForced || forced, vs[at[n]].name, vs[at[n]].state.data)
    ensures forall i :: 0 <= i < |vs| && vs[i].reliable == reliable && (forced || vs[i].state.changed) ==> i in at
  {
    at := SelectedInOrder(vs, reliable, forced);
    hide Sends, AllReady;
  }

  lemma SendsLast(vs: seq<Sample>, n: nat, reliable: bool, forced: bool)
    requires AllReady(vs) && n + 1 == |vs|
    ensures Sends(vs, reliable, forced) == Sends(vs[..n], reliable, forced)
      + if Selected(vs[n], reliable, forced) then [FrameOf(vs[n].state, vs[n].netId, vs[n].name, forced)] else []
  {
    assert vs == vs[..n] + [vs[n]];
    SendsAppend(vs[..n], [vs[n]], reliable, forced);
    assert [vs[n]][1..] == [];
    assert Sends([vs[n]][1..], reliable, forced) == [];
  }

  lemma {:induction false} SendsAppend(a: seq<Sample>, b: seq<Sample>, reliable: bool, forced: bool)
    requires AllReady(a) && AllReady(b)
    ensures AllReady(a + b) && Sends(a + b, reliable, forced) == Sends(a, reliable, forced) + Sends(b, reliable, forced)
  {
    hide FrameOf, Selected, Ready, AllWellFormed, AllKnown;
    assert forall i :: 0 <= i < |a + b| ==> (a + b)[i] == if i < |a| then a[i] else b[i - |a|];
    if a == [] {
      assert a + b == b;
    } else {
      assert (a + b)[1..] == a[1..] + b;
      SendsAppend(a[1..], b, reliable, forced);
    }
  }

  class NetVar {
    const netId: uint32
    const name: seq<byte>
    const reliable: bool
    var data: seq<byte>
    var changed: bool
    var locked: bool
    var changeForced: bool
    var sequence: uint32
    var changes: uint32
    var checkSequence: bool

    ghost function State(): VarState
      reads this
    {
      VarState(data, changed, locked, changeForced, sequence, changes, checkSequence)
    }

    ghost function Now(): Sample
      reads this
    {
      Sample(netId, name, reliable, State())
    }

    constructor (netId: uint32, name: seq<byte>, reliable: bool, size: nat)
      ensures Now() == Sample(netId, name, reliable, Initial(size))
      ensures |data| == size && (forall i :: 0 <= i < size ==> data[i] == 0)
      ensures changed && !locked && !changeForced && sequence == 0 && changes == 0 && !checkSequence
    {
      this.netId, this.name, this.reliable := netId, name, reliable;
      data := Zeros(size);
      changed, locked, changeForced, sequence, changes, checkSequence := true, false, false, 0, 0, false;
    }

    method Set(active: bool, value: seq<byte>)
      modifies this
      ensures State() == SetTyped(old(State()), active, value)
      ensures active ==> data == value
      ensures active && old(data) != value ==>
        State() == old(State()).(data := value, changed := true, changeForced := true,
          changes := (old(changes) + 1) % 0x1_0000_0000)
      ensures !active || old(data) == value ==> State() == old(State())
    {
      var accepted := SetGuard(active, value);
      if !accepted {
        return;
      }
      data := value;
      changes := Next(changes);
      changeForced := true;
    }

    method SetGuard(active: bool, value: seq<byte>) returns (accepted: bool)
      modifies this
      ensures accepted == (active && old(data) != value)
      ensures State() == if accepted then old(State()).(changed := true, changeForced := true) else old(State())
    {
      if !active || data == value {
        return false;
      }
      changed := true;
      changeForced := true;
      accepted := true;
    }

    method SetBytes(bytes: seq<byte>)
      requires |bytes| <= |data|
      modifies this
      ensures State() == SetRaw(old(State()), bytes)
      ensures old(locked) ==> State() == old(State())
      ensures !old(locked) ==> data[..|bytes|] == bytes && data[|bytes|..] == old(data)[|bytes|..]
      ensures !old(locked) ==>
        State() == old(State()).(data := data, changed := true, changes := (old(changes) + 1) % 0x1_0000_0000)
    {
      if locked {
        return;
      }
      var i := 0;
      ghost var before := data;
      while i < |bytes|
        invariant 0 <= i <= |bytes|
        invariant |data| == |before| && State() == old(State()).(data := data)
        invariant forall k :: 0 <= k < |data| ==> data[k] == if k < i then bytes[k] else before[k]
      {
        data := data[i := bytes[i]];
        i := i + 1;
      }
      assert data == bytes + before[|bytes|..];
      changes := Next(changes);
      changed := true;
    }

    method Invalidate()
      modifies this
      ensures State() == Step(old(State()), Op.Invalidate)
      ensures State() == old(State()).(changed := true, changeForced := true)
    {
      changed := true;
      changeForced := true;
    }

    method ChangeLock(on: bool)
      modifies this
      ensures State() == Step(old(State()), if on then Op.Lock else Op.Unlock)
      ensures State() == old(State()).(locked := on)
    {
      locked := on;
    }

    /** The reception of a frame that names this variable. */
    method Apply(f: Frame, local: bool)
      requires |data| <= |f.data|
      modifies this
      ensures State() == Receive(old(State()), f, local)
      ensures (local && !f.forced) || (old(checkSequence) && f.sequence < old(sequence)) ==> State() == old(State())
      ensures (local ==> f.forced) && (old(checkSequence) ==> old(sequence) <= f.sequence) ==>
        State() == if old(locked) then old(State()).(sequence := f.sequence)
          else old(State()).(sequence := f.sequence, data := f.data[..|old(data)|], changed := true,
            changes := (old(changes) + 1) % 0x1_0000_0000)
    {
      if local && !f.forced {
      } else if !checkSequence || sequence <= f.sequence {
        sequence := f.sequence;
        SetBytes(f.data[..|data|]);
      }
    }

    /** Writes a frame into a buffer of its own and clears the flags; 0 when there is nothing to send. */
    method TakeVariableSnapshot(stream: SnapshotStream, forced: bool) returns (size: nat)
      requires stream.Valid() && Ready(Now())
      modifies this, stream`parts
      ensures stream.Valid() && State() == Snapshot(old(State()), forced)
      ensures size == if Takes(old(State()), forced) then |Encode(FrameOf(old(State()), netId, name, forced))| else 0
      ensures stream.parts == old(stream.parts)
        + if Takes(old(State()), forced) then [Encode(FrameOf(old(State()), netId, name, forced))] else []
      ensures !forced && !old(changed) ==> State() == old(State()) && stream.parts == old(stream.parts)
      ensures forced || old(changed) ==>
        && State() == old(State()).(changed := false, changeForced := false,
          sequence := (old(sequence) + 1) % 0x1_0000_0000)
        && stream.parts == old(stream.parts)
          + [Encode(Frame(0xDADADADA, netId, 512, sequence, old(changeForced) || forced, name, data))]
    {
      hide Encode;
      if !forced && !changed {
        return 0;
      }
      sequence := Next(sequence);
      var buffer := WriteEntry(Frame(FRAME_DATA, netId, 512, sequence, changeForced || forced, name, data));
      stream.Create(buffer);
      changed := false;
      changeForced := false;
      size := |buffer|;
    }
  }

  // ---------------------------------------------------------------- snapshots of many variables

  ghost function Samples(vars: seq<NetVar>): (s: seq<Sample>)
    reads vars
    ensures |s| == |vars| && forall i :: 0 <= i < |s| ==> s[i] == vars[i].Now()
  {
    seq(|vars|, i requires 0 <= i < |vars| reads vars => vars[i].Now())
  }

  predicate Distinct(vars: seq<NetVar>) {
    forall i, j :: 0 <= i < j < |vars| ==> vars[i] != vars[j]
  }

  datatype Peer = Peer(id: nat)

  /** An object of the instance: who controls it, and its variables. */
  datatype NetObject = NetObject(netId: uint32, local: bool, peer: Option<Peer>, vars: seq<NetVar>)

  /** The variables a snapshot looks at: those of the local objects, in order. */
  function Watched(objects: seq<NetObject>): seq<NetVar> {
    if objects == [] then [] else (if objects[0].local then objects[0].vars else []) + Watched(objects[1..])
  }

  /** A stream's buffers with the totals kept beside them: the longest frame, the 16-bit count. */
  datatype Tally = Tally(parts: seq<seq<byte>>, max: nat, updates: uint16)

  function Added(t: Tally, frames: seq<Frame>): Tally
    requires AllWellFormed(frames)
  {
    Tally(t.parts + EncodeAll(frames), Max(t.max, Longest(EncodeAll(frames))), Count16(t.updates + |frames|))
  }

  function Count16(n: nat): uint16 {
    n % 0x1_0000
  }

  lemma AddedNothing(t: Tally)
    ensures Added(t, []) == t
  {
  }

  lemma AddedAppend(t: Tally, f: seq<Frame>, g: seq<Frame>)
    requires AllWellFormed(f) && AllWellFormed(g)
    ensures AllWellFormed(f + g) && Added(Added(t, f), g) == Added(t, f + g)
  {
    hide EncodeAll, Longest, Count16;
    EncodeAppend(f, g);
    LongestAppend(EncodeAll(f), EncodeAll(g));
    CountWraps(t.updates, |f|, |g|);
    assert |f + g| == |f| + |g|;
    assert t.parts + EncodeAll(f) + EncodeAll(g) == t.parts + (EncodeAll(f) + EncodeAll(g));
  }

  lemma CountWraps(u: nat, a: nat, b: nat)
    ensures Count16(Count16(u + a) + b) == Count16(u + (a + b))
  {
  }

  /** One more variable looked at. */
  function AddedOne(t: Tally, v: Sample, reliable: bool, forced: bool): Tally
    requires Ready(v)
  {
    var f := FrameOf(v.state, v.netId, v.name, forced);
    if Selected(v, reliable, forced)
    then Tally(t.parts + [Encode(f)], Max(t.max, |Encode(f)|), Count16(t.updates + 1))
    else t
  }

  lemma AddedOneIs(t: Tally, v: Sample, reliable: bool, forced: bool)
    requires Ready(v)
    ensures AddedOne(t, v, reliable, forced) == Added(t, Sends([v], reliable, forced))
  {
    assert [v][1..] == [];
    if Selected(v, reliable, forced) {
      var f := FrameOf(v.state, v.netId, v.name, forced);
      assert Sends([v], reliable, forced) == [f];
      assert EncodeAll([f]) == [Encode(f)];
      assert Longest([Encode(f)]) == |Encode(f)|;
    } else {
      AddedNothing(t);
    }
  }

  lemma AddedNext(t: Tally, vs: seq<Sample>, i: nat, reliable: bool, forced: bool)
    requires AllReady(vs) && i < |vs|
    ensures AddedOne(Added(t, Sends(vs[..i], reliable, forced)), vs[i], reliable, forced)
      == Added(t, Sends(vs[..i + 1], reliable, forced))
  {
    hide Added, AddedOne, Sends;
    assert vs[..i + 1] == vs[..i] + [vs[i]];
    SendsAppend(vs[..i], [vs[i]], reliable, forced);
    AddedOneIs(Added(t, Sends(vs[..i], reliable, forced)), vs[i], reliable, forced);
    AddedAppend(t, Sends(vs[..i], reliable, forced), Sends([vs[i]], reliable, forced));
  }

  method TakeOne(v: NetVar, stream: SnapshotStream, reliable: bool, forced: bool, max: nat, updates: uint16)
    returns (max': nat, updates': uint16)
    requires stream.Valid() && Ready(v.Now())
    modifies v, stream`parts
    ensures stream.Valid() && v.Now() == After(old(v.Now()), reliable, forced)
    ensures v.reliable != reliable || (!forced && !old(v.changed)) ==>
      v.Now() == old(v.Now()) && stream.parts == old(stream.parts)
    ensures Tally(stream.parts, max', updates')
      == AddedOne(Tally(old(stream.parts), max, updates), old(v.Now()), reliable, forced)
  {
    hide Encode;
    max', updates' := max, updates;
    if v.reliable != reliable {
      return;
    }
    var size := v.TakeVariableSnapshot(stream, forced);
    if size == 0 {
      return;
    }
    if size > max {
      max' := size;
    }
    updates' := Count16(updates + 1);
  }

  method TakeObjectSnapshot(vars: seq<NetVar>, stream: SnapshotStream, reliable: bool, forced: bool, max: nat,
      updates: uint16)
    returns (max': nat, updates': uint16)
    requires stream.Valid() && Distinct(vars) && AllReady(Samples(vars))
    modifies vars, stream`parts
    ensures stream.Valid()
    ensures forall v :: v in vars ==> v.Now() == After(old(v.Now()), reliable, forced)
    ensures forall v :: v in vars && (v.reliable != reliable || (!forced && !old(v.changed))) ==>
      v.Now() == old(v.Now())
    ensures forall v :: v in vars && v.reliable == reliable && (forced || old(v.changed)) ==>
      v.State() == old(v.State()).(changed := false, changeForced := false,
        sequence := (old(v.sequence) + 1) % 0x1_0000_0000)
    ensures Tally(stream.parts, max', updates')
      == Added(Tally(old(stream.parts), max, updates), Sends(old(Samples(vars)), reliable, forced))
  {
    hide Added, AddedOne, Sends, After, Ready, Selected;
    ghost var before, start := Samples(vars), Tally(stream.parts, max, updates);
    max', updates' := max, updates;
    AddedNothing(start);
    var i := 0;
    assert Sends(before[..0], reliable, forced) == [] by { SendsNothing(reliable, forced); }
    while i < |vars|
      invariant 0 <= i <= |vars| && stream.Valid()
      invariant forall k :: 0 <= k < i ==> vars[k].Now() == After(before[k], reliable, forced)
      invariant forall k :: i <= k < |vars| ==> vars[k].Now() == before[k]
      invariant Tally(stream.parts, max', updates') == Added(start, Sends(before[..i], reliable, forced))
    {
      AddedNext(start, before, i, reliable, forced);
      max', updates' := TakeOne(vars[i], stream, reliable, forced, max', updates');
      i := i + 1;
    }
    assert before[..i] == before;
    LeftBy(vars, before, reliable, forced);
  }

  /** What a snapshot leaves of some variables, field by field. */
  lemma LeftBy(vars: seq<NetVar>, before: seq<Sample>, reliable: bool, forced: bool)
    requires |vars| == |before| && forall i :: 0 <= i < |vars| ==> vars[i].Now() == After(before[i], reliable, forced)
    ensures forall i :: 0 <= i < |vars| ==>
      vars[i].State() == if vars[i].reliable == reliable && (forced || before[i].state.changed)
        then before[i].state.(changed := false, changeForced := false,
          sequence := (before[i].state.sequence + 1) % 0x1_0000_0000)
        else before[i].state
  {
  }

  lemma SendsNothing(reliable: bool, forced: bool)
    ensures Sends([], reliable, forced) == []
  {
  }

  // ---------------------------------------------------------------- all objects of all managers

  lemma AddedGroup(t: Tally, vs: seq<Sample>, n: nat, m: nat, reliable: bool, forced: bool)
    requires AllReady(vs) && n <= m <= |vs|
    ensures Added(Added(t, Sends(vs[..n], reliable, forced)), Sends(vs[n..m], reliable, forced))
      == Added(t, Sends(vs[..m], reliable, forced))
  {
    hide Added, Sends;
    assert vs[..m] == vs[..n] + vs[n..m];
    SendsAppend(vs[..n], vs[n..m], reliable, forced);
    AddedAppend(t, Sends(vs[..n], reliable, forced), Sends(vs[n..m], reliable, forced));
  }

  lemma {:induction false} WatchedAppend(a: seq<NetObject>, b: seq<NetObject>)
    ensures Watched(a + b) == Watched(a) + Watched(b)
  {
    if a == [] {
      assert a + b == b;
    } else {
      assert (a + b)[1..] == a[1..] + b;
      WatchedAppend(a[1..], b);
    }
  }

  lemma WatchedOne(o: NetObject)
    ensures Watched([o]) == if o.local then o.vars else []
  {
    assert [o][1..] == [];
    assert Watched([o][1..]) == [];
  }

  /** Where one object's variables are among all of them. */
  lemma WatchedAt(objects: seq<NetObject>, k: nat)
    requires k < |objects|
    ensures var n, all := |Watched(objects[..k])|, Watched(objects);
      var own := if objects[k].local then objects[k].vars else [];
      n + |own| == |Watched(objects[..k + 1])| <= |all| && all[n..n + |own|] == own
  {
    WatchedOne(objects[k]);
    hide Watched;
    assert objects[..k + 1] == objects[..k] + [objects[k]];
    assert objects == objects[..k + 1] + objects[k + 1..];
    WatchedAppend(objects[..k], [objects[k]]);
    WatchedAppend(objects[..k + 1], objects[k + 1..]);
  }

  lemma WatchedWhole(objects: seq<NetObject>)
    ensures Watched(objects[..0]) == [] && Watched(objects[..|objects|]) == Watched(objects)
  {
    assert objects[..|objects|] == objects;
  }

  /** Snapshots have been taken of the first n of all variables, and the totals say so. */
  predicate TakenUpTo(now: seq<Sample>, before: seq<Sample>, n: nat, reliable: bool, forced: bool, start: Tally,
      tally: Tally) {
    && n <= |now| == |before| && AllReady(before)
    && (forall i :: 0 <= i < n ==> now[i] == After(before[i], reliable, forced))
    && now[n..] == before[n..]
    && tally == Added(start, Sends(before[..n], reliable, forced))
  }

  ghost predicate Progress(all: seq<NetVar>, before: seq<Sample>, n: nat, reliable: bool, forced: bool, start: Tally,
      tally: Tally)
    reads all
  {
    Distinct(all) && TakenUpTo(Samples(all), before, n, reliable, forced, start, tally)
  }

  lemma ProgressNone(all: seq<NetVar>, reliable: bool, forced: bool, start: Tally)
    requires Distinct(all) && AllReady(Samples(all))
    ensures Progress(all, Samples(all), 0, reliable, forced, start, start)
  {
    hide Added;
    AddedNothing(start);
    SendsNothing(reliable, forced);
    assert Samples(all)[..0] == [];
  }

  /** The next variables have been taken, and no others touched. */
  predicate Stretch(was: seq<Sample>, now: seq<Sample>, n: nat, m: nat, reliable: bool, forced: bool) {
    && n <= m <= |was| == |now| && now[..n] == was[..n] && now[m..] == was[m..]
    && forall i :: n <= i < m ==> now[i] == After(was[i], reliable, forced)
  }

  lemma TakenFurther(was: seq<Sample>, now: seq<Sample>, before: seq<Sample>, n: nat, m: nat, reliable: bool,
      forced: bool,
      start: Tally, tally: Tally, tally': Tally)
    requires TakenUpTo(was, before, n, reliable, forced, start, tally) && Stretch(was, now, n, m, reliable, forced)
    requires tally' == Added(tally, Sends(before[n..m], reliable, forced))
    ensures TakenUpTo(now, before, m, reliable, forced, start, tally')
  {
    hide Added, Sends, After, Ready, AllReady;
    AddedGroup(start, before, n, m, reliable, forced);
    assert forall i :: 0 <= i < n ==> now[..n][i] == was[..n][i];
    assert forall i :: n <= i < |was| ==> was[i] == was[n..][i - n] == before[n..][i - n] == before[i];
    assert now[m..] == was[m..] == was[n..][m - n..] == before[n..][m - n..] == before[m..];
  }

  lemma GroupTaken(all: seq<NetVar>, n: nat, vars: seq<NetVar>, was: seq<Sample>, reliable: bool, forced: bool)
    requires n + |vars| <= |all| == |was| && all[n..n + |vars|] == vars
    requires forall k :: 0 <= k < |vars| ==> vars[k].Now() == After(was[n + k], reliable, forced)
    requires forall i :: 0 <= i < n || n + |vars| <= i < |all| ==> all[i].Now() == was[i]
    ensures Stretch(was, Samples(all), n, n + |vars|, reliable, forced)
  {
    hide After;
    forall i | n <= i < n + |vars| ensures Samples(all)[i] == After(was[i], reliable, forced) {
      assert all[i] == vars[i - n];
    }
  }

  /** Going on with one object's variables. */
  method TakeGroup(ghost all: seq<NetVar>, ghost before: seq<Sample>, ghost n: nat, ghost start: Tally,
      vars: seq<NetVar>, stream: SnapshotStream, reliable: bool, forced: bool, max: nat, updates: uint16)
    returns (max': nat, updates': uint16)
    requires stream.Valid() && n + |vars| <= |all| && all[n..n + |vars|] == vars
    requires Progress(all, before, n, reliable, forced, start, Tally(stream.parts, max, updates))
    modifies vars, stream`parts
    ensures stream.Valid()
    ensures Progress(all, before, n + |vars|, reliable, forced, start, Tally(stream.parts, max', updates'))
  {
    hide Added, Sends, After, AllReady, Progress, Distinct, AllWellFormed, AllKnown;
    ghost var was, tally := Samples(all), Tally(stream.parts, max, updates);
    GroupOf(all, before, n, vars, reliable, forced, start, tally);
    max', updates' := TakeObjectSnapshot(vars, stream, reliable, forced, max, updates);
    assert forall k :: 0 <= k < |vars| ==> vars[k].Now() == After(was[n + k], reliable, forced);
    assert forall i :: 0 <= i < n || n + |vars| <= i < |all| ==> all[i].Now() == was[i];
    GroupDone(all, before, n, vars, was, reliable, forced, start, tally, Tally(stream.parts, max', updates'));
  }

  lemma GroupDone(all: seq<NetVar>, before: seq<Sample>, n: nat, vars: seq<NetVar>, was: seq<Sample>, reliable: bool,
      forced: bool, start: Tally, tally: Tally, tally': Tally)
    requires n + |vars| <= |all| == |was| == |before| && all[n..n + |vars|] == vars && Distinct(all)
    requires TakenUpTo(was, before, n, reliable, forced, start, tally)
    requires forall k :: 0 <= k < |vars| ==> vars[k].Now() == After(was[n + k], reliable, forced)
    requires forall i :: 0 <= i < n || n + |vars| <= i < |all| ==> all[i].Now() == was[i]
    requires tally' == Added(tally, Sends(before[n..n + |vars|], reliable, forced))
    ensures Progress(all, before, n + |vars|, reliable, forced, start, tally')
  {
    GroupTaken(all, n, vars, was, reliable, forced);
    TakenFurther(was, Samples(all), before, n, n + |vars|, reliable, forced, start, tally, tally');
    hide TakenUpTo, Distinct;
  }

  lemma GroupOf(all: seq<NetVar>, before: seq<Sample>, n: nat, vars: seq<NetVar>, reliable: bool, forced: bool,
      start: Tally, tally: Tally)
    requires n + |vars| <= |all| && all[n..n + |vars|] == vars
      && Progress(all, before, n, reliable, forced, start, tally)
    ensures AllReady(before) && |before| == |all| && Distinct(all)
    ensures TakenUpTo(Samples(all), before, n, reliable, forced, start, tally)
    ensures Samples(vars) == before[n..n + |vars|] && Distinct(vars) && AllReady(Samples(vars))
    ensures forall k :: 0 <= k < |vars| ==> vars[k] == all[n + k]
    ensures forall i :: 0 <= i < n || n + |vars| <= i < |all| ==> all[i] !in vars
  {
    hide Added, Sends, After, Ready;
    var now := Samples(all);
    assert forall i :: 0 <= i < |vars| ==> vars[i] == all[n + i];
    assert forall i :: n <= i < |all| ==> now[i] == now[n..][i - n] == before[n..][i - n] == before[i];
  }

  /** Every object that is local, one after another. */
  method EachObject(ghost all: seq<NetVar>, ghost before: seq<Sample>, ghost n: nat, ghost start: Tally,
      ghost own: seq<NetVar>, objects: seq<NetObject>, stream: SnapshotStream, reliable: bool, forced: bool, max: nat,
      updates: uint16)
    returns (max': nat, updates': uint16)
    requires stream.Valid()
    requires own == Watched(objects) && n + |own| <= |all| && all[n..n + |own|] == own
    requires Progress(all, before, n, reliable, forced, start, Tally(stream.parts, max, updates))
    modifies own, stream`parts
    ensures stream.Valid()
    ensures Progress(all, before, n + |own|, reliable, forced, start, Tally(stream.parts, max', updates'))
  {
    hide Progress, Watched;
    max', updates' := max, updates;
    WatchedWhole(objects);
    var k := 0;
    ghost var at := n;
    while k < |objects|
      invariant 0 <= k <= |objects| && at == n + |Watched(objects[..k])| <= |all| && stream.Valid()
      invariant Progress(all, before, at, reliable, forced, start, Tally(stream.parts, max', updates'))
    {
      WatchedAt(objects, k);
      var o := objects[k];
      if o.local {
        InnerSlice(all, n, own, at - n, o.vars);
        max', updates' := TakeGroup(all, before, at, start, o.vars, stream, reliable, forced, max', updates');
        at := at + |o.vars|;
      }
      k := k + 1;
    }
  }

  method GetSnapshot(ghost all: seq<NetVar>, ghost before: seq<Sample>, ghost n: nat, ghost start: Tally,
      ghost own: seq<NetVar>, objects: seq<NetObject>, stream: SnapshotStream, reliable: bool, forced: bool, max: nat,
      updates: uint16)
    returns (max': nat, updates': uint16)
    requires stream.Valid()
    requires own == Watched(objects) && n + |own| <= |all| && all[n..n + |own|] == own
    requires Progress(all, before, n, reliable, forced, start, Tally(stream.parts, max, updates))
    modifies own, stream`parts
    ensures stream.Valid()
    ensures Progress(all, before, n + |own|, reliable, forced, start, Tally(stream.parts, max', updates'))
    ensures forall v :: v in own && (v.reliable != reliable || (!forced && !old(v.changed))) ==>
      v.Now() == old(v.Now())
    ensures forall v :: v in own && v.reliable == reliable && (forced || old(v.changed)) ==>
      v.State() == old(v.State()).(changed := false, changeForced := false,
        sequence := (old(v.sequence) + 1) % 0x1_0000_0000)
  {
    hide Progress, Watched;
    ProgressBefore(all, before, n, own, reliable, forced, start, Tally(stream.parts, max, updates));
    max', updates' :=
      EachObject(all, before, n, start, own, objects, stream, reliable, forced, max, updates);
    ProgressAfter(all, before, n, own, reliable, forced, start, Tally(stream.parts, max', updates'));
  }

  lemma ProgressBefore(all: seq<NetVar>, before: seq<Sample>, n: nat, own: seq<NetVar>, reliable: bool, forced: bool,
      start: Tally, tally: Tally)
    requires n + |own| <= |all| && all[n..n + |own|] == own
    requires Progress(all, before, n, reliable, forced, start, tally)
    ensures |before| == |all| && forall i :: 0 <= i < |own| ==> own[i].Now() == before[n..n + |own|][i]
  {
    GroupOf(all, before, n, own, reliable, forced, start, tally);
    hide *;
    assert forall i :: 0 <= i < |own| ==> Samples(own)[i] == own[i].Now();
  }

  lemma ProgressAfter(all: seq<NetVar>, before: seq<Sample>, n: nat, own: seq<NetVar>, reliable: bool, forced: bool,
      start: Tally, tally: Tally)
    requires n + |own| <= |all| && all[n..n + |own|] == own
    requires Progress(all, before, n + |own|, reliable, forced, start, tally)
    ensures |before| == |all|
    ensures var was := before[n..n + |own|];
      forall i :: 0 <= i < |own| ==>
        own[i].State() == if own[i].reliable == reliable && (forced || was[i].state.changed)
          then was[i].state.(changed := false, changeForced := false,
            sequence := (was[i].state.sequence + 1) % 0x1_0000_0000)
          else was[i].state
  {
    var was := before[n..n + |own|];
    forall i | 0 <= i < |own| ensures own[i].Now() == After(was[i], reliable, forced) {
      assert own[i] == all[n + i] && Samples(all)[n + i] == all[n + i].Now();
    }
    LeftBy(own, was, reliable, forced);
  }

  lemma InnerSlice<T>(all: seq<T>, n: nat, own: seq<T>, at: nat, part: seq<T>)
    requires n + |own| <= |all| && all[n..n + |own|] == own
    requires at + |part| <= |own| && own[at..at + |part|] == part
    ensures all[n + at..n + at + |part|] == part
    ensures forall v :: v in part ==> v in own
  {
    forall i | 0 <= i < |part| ensures all[n + at..n + at + |part|][i] == part[i] && part[i] in own {
      assert own[at..at + |part|][i] == own[at + i] == all[n..n + |own|][at + i];
    }
  }

  function WatchedBy(managers: seq<seq<NetObject>>): seq<NetVar> {
    if managers == [] then [] else Watched(managers[0]) + WatchedBy(managers[1..])
  }

  lemma {:induction false} WatchedByAppend(a: seq<seq<NetObject>>, b: seq<seq<NetObject>>)
    ensures WatchedBy(a + b) == WatchedBy(a) + WatchedBy(b)
  {
    hide Watched;
    if a == [] {
      assert a + b == b;
    } else {
      assert (a + b)[1..] == a[1..] + b;
      WatchedByAppend(a[1..], b);
    }
  }

  /** The variables looked at are exactly those of local objects. */
  lemma {:induction false} OnlyLocalsWatched(managers: seq<seq<NetObject>>, v: NetVar)
    ensures v in WatchedBy(managers) <==> exists m, k ::
      0 <= m < |managers| && 0 <= k < |managers[m]| && managers[m][k].local && v in managers[m][k].vars
  {
    hide Watched;
    if managers != [] {
      var rest := managers[1..];
      OnlyLocalsWatched(rest, v);
      OnlyLocalsOf(managers[0], v);
      if v in Watched(managers[0]) {
        var k :| 0 <= k < |managers[0]| && managers[0][k].local && v in managers[0][k].vars;
      } else if v in WatchedBy(rest) {
        var m, k :| 0 <= m < |rest| && 0 <= k < |rest[m]| && rest[m][k].local && v in rest[m][k].vars;
        assert managers[m + 1] == rest[m];
      } else {
        assert forall m :: 1 <= m < |managers| ==> managers[m] == rest[m - 1];
      }
    }
  }

  lemma {:induction false} OnlyLocalsOf(objects: seq<NetObject>, v: NetVar)
    ensures v in Watched(objects) <==> exists k :: 0 <= k < |objects| && objects[k].local && v in objects[k].vars
  {
    if objects != [] {
      var rest := objects[1..];
      OnlyLocalsOf(rest, v);
      if v in Watched(rest) {
        var k :| 0 <= k < |rest| && rest[k].local && v in rest[k].vars;
        assert objects[k + 1] == rest[k];
      } else {
        assert forall k :: 1 <= k < |objects| ==> objects[k] == rest[k - 1];
      }
    }
  }

  lemma WatchedByOne(objects: seq<NetObject>)
    ensures WatchedBy([objects]) == Watched(objects)
  {
    hide Watched;
    assert [objects][1..] == [];
    assert WatchedBy([objects][1..]) == [];
  }

  lemma WatchedByAt(managers: seq<seq<NetObject>>, k: nat)
    requires k < |managers|
    ensures var n, all, own := |WatchedBy(managers[..k])|, WatchedBy(managers), Watched(managers[k]);
      n + |own| == |WatchedBy(managers[..k + 1])| <= |all| && all[n..n + |own|] == own
  {
    WatchedByOne(managers[k]);
    hide Watched, WatchedBy;
    assert managers[..k + 1] == managers[..k] + [managers[k]];
    assert managers == managers[..k + 1] + managers[k + 1..];
    WatchedByAppend(managers[..k], [managers[k]]);
    WatchedByAppend(managers[..k + 1], managers[k + 1..]);
  }

  lemma WatchedByWhole(managers: seq<seq<NetObject>>)
    ensures WatchedBy(managers[..0]) == [] && WatchedBy(managers[..|managers|]) == WatchedBy(managers)
  {
    assert managers[..|managers|] == managers;
  }

  /** Which frames a snapshot sends now. */
  ghost function Pending(
    running: bool, managers: seq<seq<NetObject>>, reliable: bool, forced: bool): (frames: seq<Frame>)
    requires AllReady(Samples(WatchedBy(managers)))
    reads WatchedBy(managers)
    ensures AllWellFormed(frames) && AllKnown(frames)
    ensures forall i :: 0 <= i < |frames| ==> frames[i].kind == FRAME_DATA && frames[i].controller == 512
  {
    if running then Sends(Samples(WatchedBy(managers)), reliable, forced) else []
  }

  /** The managers' snapshots, one after another. */
  method EachManager(ghost all: seq<NetVar>, ghost before: seq<Sample>, ghost start: Tally,
      managers: seq<seq<NetObject>>, stream: SnapshotStream, reliable: bool, forced: bool, max: nat, updates: uint16)
    returns (max': nat, updates': uint16)
    requires stream.Valid() && all == WatchedBy(managers)
    requires Progress(all, before, 0, reliable, forced, start, Tally(stream.parts, max, updates))
    modifies all, stream`parts
    ensures stream.Valid()
    ensures Progress(all, before, |all|, reliable, forced, start, Tally(stream.parts, max', updates'))
  {
    hide Watched, WatchedBy, Progress;
    max', updates' := max, updates;
    WatchedByWhole(managers);
    var k := 0;
    ghost var at := 0;
    while k < |managers|
      invariant 0 <= k <= |managers| && at == |WatchedBy(managers[..k])| <= |all| && stream.Valid()
      invariant Progress(all, before, at, reliable, forced, start, Tally(stream.parts, max', updates'))
    {
      WatchedByAt(managers, k);
      ghost var own := Watched(managers[k]);
      InnerSlice(all, 0, all, at, own);
      max', updates' := GetSnapshot(all, before, at, start, own, managers[k], stream, reliable, forced, max',
        updates');
      at := at + |own|;
      k := k + 1;
    }
  }

  /** A system that is not running adds nothing. */
  method CollectSnapshots(running: bool, managers: seq<seq<NetObject>>, stream: SnapshotStream, reliable: bool,
      forced: bool, max: nat, updates: uint16)
    returns (max': nat, updates': uint16)
    requires stream.Valid() && Distinct(WatchedBy(managers)) && AllReady(Samples(WatchedBy(managers)))
    modifies WatchedBy(managers), stream`parts
    ensures stream.Valid()
    ensures forall v :: v in WatchedBy(managers) ==>
      v.Now() == if running then After(old(v.Now()), reliable, forced) else old(v.Now())
    ensures forall v :: v in WatchedBy(managers) ==>
      !running || v.reliable != reliable || (!forced && !old(v.changed)) ==> v.Now() == old(v.Now())
    ensures running ==> forall v :: v in WatchedBy(managers) && v.reliable == reliable && (forced || old(v.changed)) ==>
      v.State() == old(v.State()).(changed := false, changeForced := false,
        sequence := (old(v.sequence) + 1) % 0x1_0000_0000)
    ensures Tally(stream.parts, max', updates')
      == Added(Tally(old(stream.parts), max, updates), old(Pending(running, managers, reliable, forced)))
  {
    hide WatchedBy, Added, Sends, After, Progress;
    ghost var all := WatchedBy(managers);
    ghost var before, start := Samples(all), Tally(stream.parts, max, updates);
    max', updates' := max, updates;
    AddedNothing(start);
    if !running {
      return;
    }
    ProgressNone(all, reliable, forced, start);
    max', updates' := EachManager(all, before, start, managers, stream, reliable, forced, max, updates);
    ProgressDone(all, before, reliable, forced, start, Tally(stream.parts, max', updates'));
    LeftBy(all, before, reliable, forced);
  }

  lemma ProgressDone(all: seq<NetVar>, before: seq<Sample>, reliable: bool, forced: bool, start: Tally, tally: Tally)
    requires Progress(all, before, |all|, reliable, forced, start, tally)
    ensures forall i :: 0 <= i < |all| ==> all[i].Now() == After(before[i], reliable, forced)
    ensures tally == Added(start, Sends(before, reliable, forced))
  {
    hide Added, Sends, After;
    assert before[..|all|] == before;
    assert forall i :: 0 <= i < |all| ==> Samples(all)[i] == all[i].Now();
  }
}
