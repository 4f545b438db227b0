/** Whole snapshots: what a taken snapshot's packet holds, and when a receiver gets it back. */
module SnapshotTransfer {
  import opened NetTypes
  import opened SnapshotFrame
  import opened SnapshotPacket
  import opened SnapshotSystem

  const CONTROLLER_LOCAL: uint32 := 256
  const CONTROLLER_NONE: uint32 := 512

  /** The largest buffer, the header's among them. */
  method LargestBuffer(parts: seq<seq<byte>>) returns (max: nat)
    ensures max == Longest(parts)
  {
    max := 0;
    var i := 0;
    ghost var whole := Longest(parts);
    while i < |parts|
      invariant 0 <= i <= |parts| && whole == Max(max, Longest(parts[i..]))
    {
      if |parts[i]| > max {
        max := |parts[i]|;
      }
      assert parts[i..][1..] == parts[i + 1..];
      i := i + 1;
    }
  }

  /** The totals a snapshot starts from. */
  function Loaded(parts: seq<seq<byte>>): Tally
    requires |parts| >= 1
  {
    Tally(parts, if |parts| > 1 then Longest(parts) else 0, Count16(|parts| - 1))
  }

  /** A header that is written in front of padded frames, unless the 16-bit count is zero. */
  function Headed(t: Tally, sequence: uint32): seq<seq<byte>>
    requires |t.parts| >= 1 && t.max < 0x1_0000_0000
  {
    if t.updates == 0 then t.parts
    else [t.parts[0] + HeaderBytes(Header(OBJECT_FRAME, t.updates, sequence, t.max))] + PadAll(t.parts[1..], t.max)
  }

  method DoSnapshot(running: bool, managers: seq<seq<NetObject>>, stream: SnapshotStream, reliable: bool,
      forced: bool, sequence: uint32)
    requires stream.Valid() && Distinct(WatchedBy(managers)) && AllReady(Samples(WatchedBy(managers)))
    requires Loaded(stream.parts).max < 0x1_0000_0000
    modifies WatchedBy(managers), stream`parts
    ensures stream.Valid()
    ensures forall v :: v in WatchedBy(managers) ==>
      v.Now() == if running then After(old(v.Now()), reliable, forced) else old(v.Now())
    ensures forall v :: v in WatchedBy(managers) ==>
      !running || v.reliable != reliable || (!forced && !old(v.changed)) ==> v.Now() == old(v.Now())
    ensures running ==> forall v :: v in WatchedBy(managers) && v.reliable == reliable && (forced || old(v.changed)) ==>
      v.State() == old(v.State()).(changed := false, changeForced := false,
        sequence := (old(v.sequence) + 1) % 0x1_0000_0000)
    ensures var t := Added(Loaded(old(stream.parts)), old(Pending(running, managers, reliable, forced)));
      t.max < 0x1_0000_0000 && stream.parts == Headed(t, sequence)
  {
    hide Longest, Added, EncodeAll, HeaderBytes, PadAll, WatchedBy, After, Sends, AllReady, Distinct, AllWellFormed;
    ghost var start := Loaded(stream.parts);
    ghost var pending, vars := Pending(running, managers, reliable, forced), WatchedBy(managers);
    ghost var before := Samples(vars);
    var max := 0;
    if |stream.parts| > 1 {
      max := LargestBuffer(stream.parts);
    }
    var updates := Count16(|stream.parts| - 1);
    assert Samples(vars) == before;
    AddedFits(start, pending);
    max, updates := CollectSnapshots(running, managers, stream, reliable, forced, max, updates);
    if updates == 0 {
      return;
    }
    stream.Generate(sequence, updates, max);
  }

  lemma AddedFits(t: Tally, frames: seq<Frame>)
    requires AllWellFormed(frames) && t.max < 0x1_0000_0000 && |t.parts| >= 1
    ensures Added(t, frames).max < 0x1_0000_0000 && |Added(t, frames).parts| >= 1
  {
    LongestFits(frames);
  }

  // ---------------------------------------------------------------- the packet

  /** The bytes sent for some frames; a number of them that wraps to zero leaves the header out. */
  function PacketFor(frames: seq<Frame>, sequence: uint32): seq<byte>
    requires AllWellFormed(frames)
  {
    if |frames| % 0x1_0000 == 0 then Concat(EncodeAll(frames)) else Packet(frames, sequence)
  }

  /** A fresh stream with frames put in front, such as the allocation of a new object. */
  method TakeSnapshot(preloaded: seq<Frame>, running: bool, managers: seq<seq<NetObject>>, reliable: bool,
      forced: bool, sequence: uint32)
    returns (packet: seq<byte>)
    requires AllWellFormed(preloaded)
    requires Distinct(WatchedBy(managers)) && AllReady(Samples(WatchedBy(managers)))
    modifies WatchedBy(managers)
    ensures forall v :: v in WatchedBy(managers) ==>
      v.Now() == if running then After(old(v.Now()), reliable, forced) else old(v.Now())
    ensures forall v :: v in WatchedBy(managers) ==>
      !running || v.reliable != reliable || (!forced && !old(v.changed)) ==> v.Now() == old(v.Now())
    ensures running ==> forall v :: v in WatchedBy(managers) && v.reliable == reliable && (forced || old(v.changed)) ==>
      v.State() == old(v.State()).(changed := false, changeForced := false,
        sequence := (old(v.sequence) + 1) % 0x1_0000_0000)
    ensures AllWellFormed(preloaded + old(Pending(running, managers, reliable, forced)))
    ensures packet == PacketFor(preloaded + old(Pending(running, managers, reliable, forced)), sequence)
  {
    hide WatchedBy, After, EncodeAll, Longest, Packet, Concat, HeaderBytes, Headed, Added, Loaded, PacketFor;
    hide Sends, AllReady, Distinct;
    ghost var pending, vars := Pending(running, managers, reliable, forced), WatchedBy(managers);
    ghost var before := Samples(vars);
    var stream := Preload(preloaded);
    assert Samples(vars) == before;
    LoadedFresh(preloaded);
    DoSnapshot(running, managers, stream, reliable, forced, sequence);
    HeadedAsPacket(preloaded, pending, sequence);
    packet := stream.Finish();
  }

  method Preload(frames: seq<Frame>) returns (stream: SnapshotStream)
    requires AllWellFormed(frames)
    ensures fresh(stream) && stream.Valid() && !stream.finished && stream.parts == [[]] + EncodeAll(frames)
  {
    hide Encode, EncodeAll;
    stream := new SnapshotStream();
    var i := 0;
    assert EncodeAll(frames[..0]) == [];
    while i < |frames|
      invariant 0 <= i <= |frames| && stream.Valid() && !stream.finished
      invariant stream.parts == [[]] + EncodeAll(frames[..i])
    {
      var buffer := SnapshotEntry.WriteEntry(frames[i]);
      stream.Create(buffer);
      assert frames[..i + 1] == frames[..i] + [frames[i]];
      EncodeAppend(frames[..i], [frames[i]]);
      EncodeOne(frames[i]);
      i := i + 1;
    }
    assert frames[..i] == frames;
  }

  lemma EncodeOne(f: Frame)
    requires WellFormed(f)
    ensures EncodeAll([f]) == [Encode(f)]
  {
    hide Encode;
  }

  lemma LoadedFresh(frames: seq<Frame>)
    requires AllWellFormed(frames)
    ensures var parts := [[]] + EncodeAll(frames);
      Loaded(parts) == Tally(parts, Longest(EncodeAll(frames)), Count16(|frames|)) && Loaded(parts).max <= 208
  {
    hide Encode;
    LongestFits(frames);
    LongestAppend([[]], EncodeAll(frames));
    EmptyIsShort();
    hide EncodeAll, Longest;
  }

  lemma EmptyIsShort()
    ensures Longest([]) == 0 && Longest([[]]) == 0
  {
    var one: seq<seq<byte>> := [[]];
    assert one[1..] == [];
    assert Longest(one) == Max(0, Longest([]));
  }

  /** What a snapshot leaves in a fresh stream, put together, is the packet of all its frames. */
  lemma HeadedAsPacket(preloaded: seq<Frame>, pending: seq<Frame>, sequence: uint32)
    requires AllWellFormed(preloaded) && AllWellFormed(pending) && |Loaded([[]] + EncodeAll(preloaded)).parts| >= 1
    ensures AllWellFormed(preloaded + pending)
    ensures var t := Added(Loaded([[]] + EncodeAll(preloaded)), pending);
      t.max < 0x1_0000_0000 && |t.parts| >= 1
      && Headed(t, sequence)[0] + Concat(Headed(t, sequence)[1..]) == PacketFor(preloaded + pending, sequence)
  {
    hide Encode, EncodeAll, Longest, Concat, HeaderBytes, PadAll;
    var frames := preloaded + pending;
    var parts := EncodeAll(frames);
    var t := Added(Loaded([[]] + EncodeAll(preloaded)), pending);
    EncodeAppend(preloaded, pending);
    LoadedFresh(preloaded);
    LongestAppend(EncodeAll(preloaded), EncodeAll(pending));
    LongestFits(frames);
    assert t.parts == [[]] + parts;
    assert t.max == Longest(parts);
    CountWraps(0, |preloaded|, |pending|);
    assert t.updates == |frames| % 0x1_0000;
    assert t.parts[1..] == parts;
    assert Headed(t, sequence)[1..] == if t.updates == 0 then parts else PadAll(parts, t.max);
    assert [] + Concat(parts) == Concat(parts);
    assert forall h: seq<byte> :: [] + h == h;
  }

  // ---------------------------------------------------------------- and back

  /** Frames as the system makes them: of a known kind, with one of the two controller values. */
  predicate Proper(f: Frame) {
    Known(f.kind) && (f.controller == CONTROLLER_LOCAL || f.controller == CONTROLLER_NONE)
  }

  /** Without a header the first frame's own fields are taken for one, and nothing is read. */
  lemma HeaderlessIsRefused(frames: seq<Frame>, client: bool)
    requires AllWellFormed(frames) && frames != [] && Proper(frames[0])
    ensures var o := Handle(Concat(EncodeAll(frames)), client); o.frames == [] && o.stopped.Some?
  {
    var f := frames[0];
    var data := Concat(EncodeAll(frames));
    assert data == Encode(f) + Concat(EncodeAll(frames)[1..]);
    PrefixOfSum(Encode(f), Encode(f), Concat(EncodeAll(frames)[1..]));
    Layout(f, data);
    hide Encode, EncodeAll, Concat, Le32, FromLe32, FromLe16;
    NumbersRoundTrip(f.controller, 0);
    KindAsCount(f.kind, data);
    var h := ReadHeader(data).value;
    assert h.maxLength == f.controller && h.count != 0;
    if |data| - HEADER_SIZE == (h.count*h.maxLength) % 0x1_0000_0000 {
      assert Decode(data[HEADER_SIZE..], h.maxLength) == Err(SizeMismatch);
      assert Walk(data[HEADER_SIZE..], h.count, h.maxLength, client) == Outcome([], Some(SizeMismatch));
    }
  }

  lemma KindAsCount(kind: uint32, data: seq<byte>)
    requires Known(kind) && |data| >= 4 && data[..4] == Le32(kind)
    ensures FromLe16(data[2..4]) != 0
  {
    assert data[2..4] == data[..4][2..4] == Le32(kind)[2..4];
    assert data[2..4][1] == Le32(kind)[3] == kind / 0x100_0000 != 0;
  }

  /**
   * A snapshot of any number of frames, preloaded or pending, reaches the receiver whole and in
   * order if and only if there are fewer than 65536 of them; otherwise none of it does.
   */
  lemma SnapshotArrivesIff(frames: seq<Frame>, sequence: uint32, client: bool)
    requires AllWellFormed(frames) && frames != [] && forall i :: 0 <= i < |frames| ==> Proper(frames[i])
    ensures var o := Handle(PacketFor(frames, sequence), client);
      && (o == Outcome(Delivered(frames, client), None) <==> |frames| < 0x1_0000)
      && (|frames| >= 0x1_0000 ==> o.frames == [] && o.stopped.Some?)
  {
    hide Handle, Packet, Delivered, EncodeAll, Concat;
    if |frames| % 0x1_0000 == 0 {
      HeaderlessIsRefused(frames, client);
    } else {
      PacketRoundTrip(frames, sequence, client);
    }
  }

  /** Every padded frame has the declared length, which the reader accepts, and the body is count times as long. */
  lemma DeclaredSizes(frames: seq<Frame>)
    requires AllWellFormed(frames) && 0 < |frames| < 0x1_0000
    ensures var size := Longest(EncodeAll(frames));
      var padded := PadAll(EncodeAll(frames), size);
      && 146 <= size <= 208
      && (forall i :: 0 <= i < |padded| ==> |padded[i]| == size && Encode(frames[i]) <= padded[i])
      && |Concat(padded)| == |frames|*size == (|frames|*size) % 0x1_0000_0000
  {
    hide Encode;
    var size := Longest(EncodeAll(frames));
    LongestFits(frames);
    ConcatSize(PadAll(EncodeAll(frames), size), size);
    CountFits(|frames|, |frames|, size);
  }
}
