/** Snapshot packets: the stream that collects frames, the header, and the handlers that walk them. */
module SnapshotPacket {
  import opened NetTypes
  import opened SnapshotFrame

  const OBJECT_FRAME: uint16 := 0xFFFA

  // ---------------------------------------------------------------- header

  datatype Header = Header(code: uint16, count: uint16, sequence: uint32, maxLength: uint32)

  function HeaderBytes(h: Header): (s: seq<byte>)
    ensures |s| == HEADER_SIZE
  {
    Le16(h.code) + Le16(h.count) + Le32(h.sequence) + Le32(h.maxLength)
  }

  function ReadHeader(data: seq<byte>): Result<Header> {
    if |data| < HEADER_SIZE then Err(SizeMismatch)
    else Ok(Header(FromLe16(data[..2]), FromLe16(data[2..4]), FromLe32(data[4..8]), FromLe32(data[8..12])))
  }

  lemma HeaderRoundTrip(h: Header, rest: seq<byte>)
    ensures ReadHeader(HeaderBytes(h) + rest) == Ok(h)
  {
    hide Le32, Le16, FromLe32, FromLe16;
    var s := HeaderBytes(h) + rest;
    NumbersRoundTrip(h.sequence, h.code);
    NumbersRoundTrip(h.maxLength, h.count);
    Le16Size(h.code);
    Le16Size(h.count);
    assert s[..2] == Le16(h.code) && s[2..4] == Le16(h.count);
    assert s[4..8] == Le32(h.sequence) && s[8..12] == Le32(h.maxLength);
  }

  lemma Le16Size(v: uint16)
    ensures |Le16(v)| == 2
  {
  }

  // ---------------------------------------------------------------- the stream

  function Concat(parts: seq<seq<byte>>): seq<byte> {
    if parts == [] then [] else parts[0] + Concat(parts[1..])
  }

  lemma {:induction false} ConcatSnoc(parts: seq<seq<byte>>, last: seq<byte>)
    ensures Concat(parts + [last]) == Concat(parts) + last
  {
    if parts == [] {
      assert parts + [last] == [last];
      assert Concat([last]) == last + Concat([]);
    } else {
      assert (parts + [last])[1..] == parts[1..] + [last];
      ConcatSnoc(parts[1..], last);
    }
  }

  function Pad(part: seq<byte>, size: nat): (p: seq<byte>)
    ensures part <= p
    ensures |part| <= size ==> |p| == size
  {
    if |part| < size then part + Zeros(size - |part|) else part
  }

  function PadAll(parts: seq<seq<byte>>, size: nat): (p: seq<seq<byte>>)
    ensures |p| == |parts| && forall i :: 0 <= i < |p| ==> p[i] == Pad(parts[i], size)
  {
    seq(|parts|, i requires 0 <= i < |parts| => Pad(parts[i], size))
  }

  method PadBuffer(buffer: seq<byte>, padding: nat) returns (out: seq<byte>)
    ensures out == Pad(buffer, padding)
  {
    out := buffer;
    if |buffer| < padding {
      var size, i := padding - |buffer|, 0;
      while i < size
        invariant 0 <= i <= size && out == buffer + Zeros(i)
      {
        out := out + [0];
        i := i + 1;
      }
    }
  }

  /** Buffers: the header first, then one per frame. */
  class SnapshotStream {
    var parts: seq<seq<byte>>
    var finished: bool

    ghost predicate Valid()
      reads this
    {
      |parts| >= 1
    }

    constructor ()
      ensures Valid() && parts == [[]] && !finished
    {
      parts, finished := [[]], false;
    }

    method Create(content: seq<byte>)
      requires Valid()
      modifies this`parts
      ensures Valid() && parts == old(parts) + [content]
    {
      parts := parts + [content];
    }

    /** The header, followed by every buffer the first time only. */
    method Finish() returns (packet: seq<byte>)
      requires Valid()
      modifies this
      ensures Valid() && finished && packet == parts[0] && parts[1..] == old(parts)[1..]
      ensures packet == if old(finished) then old(parts)[0] else old(parts)[0] + Concat(old(parts)[1..])
    {
      if finished {
        return parts[0];
      }
      ghost var before := parts;
      var i := 1;
      while i < |parts|
        invariant 1 <= i <= |parts| == |before|
        invariant parts[1..] == before[1..]
        invariant parts[0] == before[0] + Concat(before[1..i])
      {
        var j := 0;
        while j < |parts[i]|
          invariant 0 <= j <= |before[i]| && |parts| == |before|
          invariant parts[1..] == before[1..]
          invariant parts[i] == before[i]
          invariant parts[0] == before[0] + Concat(before[1..i]) + before[i][..j]
        {
          parts := parts[0 := parts[0] + [parts[i][j]]];
          j := j + 1;
        }
        assert before[i][..j] == before[i];
        assert before[1..i + 1] == before[1..i] + [before[i]];
        ConcatSnoc(before[1..i], before[i]);
        i := i + 1;
      }
      assert before[1..i] == before[1..];
      finished := true;
      packet := parts[0];
    }

    method Clear()
      modifies this
      ensures Valid() && parts == [[]] && !finished
    {
      finished := false;
      parts := [];
      parts := parts + [[]];
    }

    /** Pads every frame to the longest; the header buffer is left alone. */
    method CopyFrom(padding: nat)
      requires Valid()
      modifies this`parts
      ensures Valid() && parts == [old(parts)[0]] + PadAll(old(parts)[1..], padding)
    {
      ghost var before := parts;
      var i := 1;
      while i < |parts|
        invariant 1 <= i <= |parts| == |before|
        invariant parts[0] == before[0]
        invariant forall k :: 1 <= k < i ==> parts[k] == Pad(before[k], padding)
        invariant forall k :: i <= k < |parts| ==> parts[k] == before[k]
      {
        var buffer := PadBuffer(parts[i], padding);
        parts := parts[i := buffer];
        i := i + 1;
      }
    }

    method Generate(sequence: uint32, updates: uint16, max: uint32)
      requires Valid()
      modifies this`parts
      ensures Valid()
      ensures parts == [old(parts)[0] + HeaderBytes(Header(OBJECT_FRAME, updates, sequence, max))]
        + PadAll(old(parts)[1..], max)
    {
      var header, i := HeaderBytes(Header(OBJECT_FRAME, updates, sequence, max)), 0;
      ghost var before := parts;
      while i < HEADER_SIZE
        invariant 0 <= i <= HEADER_SIZE
        invariant |parts| == |before| && parts[1..] == before[1..]
        invariant parts[0] == before[0] + header[..i]
      {
        parts := parts[0 := parts[0] + [header[i]]];
        i := i + 1;
      }
      assert header[..i] == header;
      assert parts[1..] == before[1..];
      CopyFrom(max);
    }
  }

  /** Finishing again returns the same packet. */
  method FinishTwice(stream: SnapshotStream) returns (first: seq<byte>, second: seq<byte>)
    requires stream.Valid()
    modifies stream
    ensures first == second
    ensures first
      == old(stream.parts)[0] + if old(stream.finished) then [] else Concat(old(stream.parts)[1..])
  {
    first := stream.Finish();
    second := stream.Finish();
  }

  // ---------------------------------------------------------------- the receiver

  /** What a handler passed on, and what stopped it. */
  datatype Outcome = Outcome(frames: seq<Frame>, stopped: Option<Failure>)

  predicate Known(kind: uint32) {
    kind == FRAME_DATA || kind == FRAME_ALLOC || kind == FRAME_DEALLOC
  }

  /** Moving the read pointer on by one stride; past the end there is nothing left to read. */
  function Advance(rest: seq<byte>, stride: nat): seq<byte> {
    if stride <= |rest| then rest[stride..] else []
  }

  /**
   * The clients' walk passes on every frame and stops at a kind it does not know; the server's
   * ignores all but data frames.
   */
  function Walk(rest: seq<byte>, count: nat, stride: nat, client: bool): Outcome
    decreases count
  {
    if count == 0 then Outcome([], None)
    else
      match Decode(rest, stride)
      case Err(e) => Outcome([], Some(e))
      case Ok(f) =>
        if client && !Known(f.kind) then Outcome([], Some(UnknownFrame))
        else
          var more := Walk(Advance(rest, stride), count - 1, stride, client);
          if client || f.kind == FRAME_DATA then Outcome([f] + more.frames, more.stopped) else more
  }

  function Handle(data: seq<byte>, client: bool): Outcome {
    match ReadHeader(data)
    case Err(e) => Outcome([], Some(e))
    case Ok(h) =>
      if |data| - HEADER_SIZE != (h.count*h.maxLength) % 0x1_0000_0000 then Outcome([], Some(Dropped))
      else Walk(data[HEADER_SIZE..], h.count, h.maxLength, client)
  }

  method HandleEntSnapshot(data: seq<byte>, client: bool) returns (frames: seq<Frame>, stopped: Option<Failure>)
    ensures Outcome(frames, stopped) == Handle(data, client)
  {
    hide Walk, FromLe16, FromLe32;
    var header := ReadHeader(data);
    if header.Err? {
      return [], Some(header.reason);
    }
    var h := header.value;
    if |data| - HEADER_SIZE != (h.count*h.maxLength) % 0x1_0000_0000 {
      return [], Some(Dropped);
    }
    frames, stopped := WalkFrames(data[HEADER_SIZE..], h.count, h.maxLength, client);
  }

  /** The handlers' loop. */
  method WalkFrames(rest: seq<byte>, count: nat, stride: nat, client: bool)
      returns (frames: seq<Frame>, stopped: Option<Failure>)
    ensures Outcome(frames, stopped) == Walk(rest, count, stride, client)
  {
    hide Decode;
    frames, stopped := [], None;
    var partition, i := rest, 0;
    while i < count
      invariant 0 <= i <= count
      invariant var more := Walk(partition, count - i, stride, client);
        Walk(rest, count, stride, client) == Outcome(frames + more.frames, more.stopped)
    {
      var decoded := Decode(partition, stride);
      if decoded.Err? {
        return frames, Some(decoded.reason);
      }
      var f := decoded.value;
      if client && !Known(f.kind) {
        return frames, Some(UnknownFrame);
      }
      ghost var more := Walk(Advance(partition, stride), count - i - 1, stride, client);
      if client || f.kind == FRAME_DATA {
        assert frames + ([f] + more.frames) == frames + [f] + more.frames;
        frames := frames + [f];
      }
      partition := Advance(partition, stride);
      i := i + 1;
    }
  }

  // ---------------------------------------------------------------- round trip

  predicate AllWellFormed(frames: seq<Frame>) {
    forall i :: 0 <= i < |frames| ==> WellFormed(frames[i])
  }

  predicate AllKnown(frames: seq<Frame>) {
    forall i :: 0 <= i < |frames| ==> Known(frames[i].kind)
  }

  function Max(a: nat, b: nat): nat {
    if a < b then b else a
  }

  function Longest(parts: seq<seq<byte>>): (n: nat)
    ensures forall i :: 0 <= i < |parts| ==> |parts[i]| <= n
  {
    if parts == [] then 0 else Max(|parts[0]|, Longest(parts[1..]))
  }

  function EncodeAll(frames: seq<Frame>): (parts: seq<seq<byte>>)
    requires AllWellFormed(frames)
    ensures |parts| == |frames| && forall i :: 0 <= i < |frames| ==> parts[i] == Encode(frames[i])
  {
    if frames == [] then [] else [Encode(frames[0])] + EncodeAll(frames[1..])
  }

  /** What a receiver of the given kind passes on when nothing stops it. */
  function Delivered(frames: seq<Frame>, client: bool): seq<Frame>
    requires AllWellFormed(frames)
  {
    if frames == [] then []
    else (if client || frames[0].kind == FRAME_DATA then [Received(frames[0])] else []) + Delivered(frames[1..], client)
  }

  /** The packet for a list of frames: their number wraps to 16 bits. */
  function Packet(frames: seq<Frame>, sequence: uint32): seq<byte>
    requires AllWellFormed(frames)
  {
    var parts := EncodeAll(frames);
    LongestFits(frames);
    HeaderBytes(Header(OBJECT_FRAME, |frames| % 0x1_0000, sequence, Longest(parts)))
      + Concat(PadAll(parts, Longest(parts)))
  }

  /** Frames are between 146 and 208 bytes, so their stride passes the reader's limits. */
  lemma {:induction false} LongestFits(frames: seq<Frame>)
    requires AllWellFormed(frames)
    ensures Longest(EncodeAll(frames)) <= 208
    ensures frames != [] ==> Longest(EncodeAll(frames)) >= 146
  {
    if frames == [] {
    } else {
      LongestFits(frames[1..]);
      assert EncodeAll(frames)[1..] == EncodeAll(frames[1..]);
    }
  }

  lemma {:induction false} ConcatSize(parts: seq<seq<byte>>, size: nat)
    requires forall i :: 0 <= i < |parts| ==> |parts[i]| == size
    ensures |Concat(parts)| == |parts|*size
  {
    if parts == [] {
    } else {
      ConcatSize(parts[1..], size);
    }
  }

  /** Walking padded frames by their stride passes on each of them, in order. */
  lemma {:induction false} WalkPadded(frames: seq<Frame>, stride: nat, client: bool)
    requires AllWellFormed(frames) && (client ==> AllKnown(frames))
    requires 10 <= stride <= ENTRY_SIZE + HEADER_SIZE
    requires forall i :: 0 <= i < |frames| ==> |Encode(frames[i])| <= stride
    ensures Walk(Concat(PadAll(EncodeAll(frames), stride)), |frames|, stride, client)
      == Outcome(Delivered(frames, client), None)
  {
    hide Encode, Decode, Pad, PadAll, EncodeAll;
    var parts := PadAll(EncodeAll(frames), stride);
    if frames == [] {
    } else {
      var first, more := Pad(Encode(frames[0]), stride), Concat(PadAll(EncodeAll(frames[1..]), stride));
      PaddedTail(frames, stride);
      assert Advance(first + more, stride) == more;
      PrefixOfSum(Encode(frames[0]), first, more);
      FrameRoundTrip(frames[0], first + more, stride);
      WalkPadded(frames[1..], stride, client);
    }
  }

  /** A client that meets a frame of no known kind has been passed on those before it, and stops. */
  lemma {:induction false} WalkStops(frames: seq<Frame>, stride: nat, n: nat)
    requires AllWellFormed(frames) && n < |frames| && AllKnown(frames[..n])
    requires frames[n].kind !in {0xDADADADA, 0xACACACAC, 0xDEDEDEDE}
    requires 10 <= stride <= ENTRY_SIZE + HEADER_SIZE
    requires forall i :: 0 <= i < |frames| ==> |Encode(frames[i])| <= stride
    ensures Walk(Concat(PadAll(EncodeAll(frames), stride)), |frames|, stride, true)
      == Outcome(Delivered(frames[..n], true), Some(UnknownFrame))
    decreases n
  {
    hide Encode, Decode, Pad, PadAll, EncodeAll, Concat;
    var first, more := Pad(Encode(frames[0]), stride), Concat(PadAll(EncodeAll(frames[1..]), stride));
    PaddedTail(frames, stride);
    assert Advance(first + more, stride) == more;
    PrefixOfSum(Encode(frames[0]), first, more);
    FrameRoundTrip(frames[0], first + more, stride);
    if n > 0 {
      assert frames[..n][1..] == frames[1..][..n - 1];
      assert frames[..n][0] == frames[0];
      WalkStops(frames[1..], stride, n - 1);
    }
  }

  lemma PaddedTail(frames: seq<Frame>, stride: nat)
    requires AllWellFormed(frames) && frames != []
    ensures Concat(PadAll(EncodeAll(frames), stride)) == Pad(Encode(frames[0]), stride)
      + Concat(PadAll(EncodeAll(frames[1..]), stride))
  {
    hide Encode, Pad;
    var parts := PadAll(EncodeAll(frames), stride);
    assert parts[1..] == PadAll(EncodeAll(frames[1..]), stride);
  }

  lemma PrefixOfSum(a: seq<byte>, b: seq<byte>, c: seq<byte>)
    requires a <= b
    ensures a <= b + c
  {
  }

  /**
   * A packet is walked back into its frames, data extended by zeros, exactly when their number
   * fits the 16-bit count; otherwise the whole packet is dropped.
   */
  lemma PacketRoundTrip(frames: seq<Frame>, sequence: uint32, client: bool)
    requires AllWellFormed(frames) && (client ==> AllKnown(frames))
    ensures Handle(Packet(frames, sequence), client)
      == if |frames| < 0x1_0000 then Outcome(Delivered(frames, client), None) else Outcome([], Some(Dropped))
  {
    hide Walk, HeaderBytes, Handle, Delivered;
    var parts := EncodeAll(frames);
    var size, count := Longest(parts), |frames| % 0x1_0000;
    LongestFits(frames);
    var padded := PadAll(parts, size);
    ConcatSize(padded, size);
    HandleHeaded(Header(OBJECT_FRAME, count, sequence, size), Concat(padded), client);
    CountFits(|frames|, count, size);
    hide Packet;
    if frames == [] {
      NothingToWalk(Concat(padded), size, client);
    } else if |frames| < 0x1_0000 {
      WalkPadded(frames, size, client);
    }
  }

  /** The first twelve bytes of a packet: code, number of frames, sequence and stride, lowest byte first. */
  lemma PacketStarts(frames: seq<Frame>, sequence: uint32)
    requires AllWellFormed(frames)
    ensures Longest(EncodeAll(frames)) < 0x100 && |Packet(frames, sequence)| >= 12
    ensures Packet(frames, sequence)[..12] == [0xFA, 0xFF, |frames| % 0x100, |frames| / 0x100 % 0x100,
      sequence % 0x100, sequence / 0x100 % 0x100, sequence / 0x1_0000 % 0x100, sequence / 0x100_0000,
      Longest(EncodeAll(frames)), 0, 0, 0]
  {
    hide EncodeAll, Longest, Concat, PadAll, HeaderBytes;
    LongestFits(frames);
    var size, count := Longest(EncodeAll(frames)), |frames| % 0x1_0000;
    CountBytes(|frames|);
    HeaderIs(Header(OBJECT_FRAME, count, sequence, size));
    assert Packet(frames, sequence)[..12] == HeaderBytes(Header(OBJECT_FRAME, count, sequence, size));
    hide Packet;
  }

  lemma HeaderIs(h: Header)
    ensures HeaderBytes(h) == [h.code % 0x100, h.code / 0x100, h.count % 0x100, h.count / 0x100,
      h.sequence % 0x100, h.sequence / 0x100 % 0x100, h.sequence / 0x1_0000 % 0x100, h.sequence / 0x100_0000,
      h.maxLength % 0x100, h.maxLength / 0x100 % 0x100, h.maxLength / 0x1_0000 % 0x100, h.maxLength / 0x100_0000]
  {
  }

  lemma CountBytes(n: nat)
    ensures n % 0x1_0000 % 0x100 == n % 0x100 && n % 0x1_0000 / 0x100 == n / 0x100 % 0x100
  {
    var q := n / 0x1_0000;
    var r := n % 0x1_0000;
    assert n == 0x100*(0x100*q) + r && r == 0x100*(r / 0x100) + r % 0x100;
    assert n / 0x100 == 0x100*q + r / 0x100;
  }

  /** A client is passed on every frame, a server the data frames, each in its place and with its data extended. */
  lemma {:induction false} PassedOnInOrder(frames: seq<Frame>, client: bool) returns (at: seq<nat>)
    requires AllWellFormed(frames)
    ensures |at| == |Delivered(frames, client)| && forall m, n :: 0 <= m < n < |at| ==> at[m] < at[n]
    ensures forall i :: i in at <==> 0 <= i < |frames| && (client || frames[i].kind == 0xDADADADA)
    ensures forall n :: 0 <= n < |at| ==> at[n] < |frames|
    ensures forall n :: 0 <= n < |at| ==> Delivered(frames, client)[n] == Received(frames[at[n]])
  {
    hide Received;
    at := [];
    if frames != [] {
      var k := |frames| - 1;
      at := PassedOnInOrder(frames[..k], client);
      DeliveredLast(frames, k, client);
      assert forall i :: 0 <= i < k ==> frames[..k][i] == frames[i];
      if client || frames[k].kind == 0xDADADADA {
        at := at + [k];
        assert k == at[|at| - 1];
      }
    }
  }

  lemma {:induction false} DeliveredLast(frames: seq<Frame>, k: nat, client: bool)
    requires AllWellFormed(frames) && k + 1 == |frames|
    ensures Delivered(frames, client) == Delivered(frames[..k], client)
      + if client || frames[k].kind == FRAME_DATA then [Received(frames[k])] else []
    decreases k
  {
    hide Received;
    if k > 0 {
      assert frames[..k][1..] == frames[1..][..k - 1];
      DeliveredLast(frames[1..], k - 1, client);
    }
  }

  lemma HandleHeaded(h: Header, body: seq<byte>, client: bool)
    ensures Handle(HeaderBytes(h) + body, client)
      == if |body| == (h.count*h.maxLength) % 0x1_0000_0000 then Walk(body, h.count, h.maxLength, client)
        else Outcome([], Some(Dropped))
  {
    hide Walk, HeaderBytes, ReadHeader;
    HeaderRoundTrip(h, body);
    assert (HeaderBytes(h) + body)[HEADER_SIZE..] == body;
  }

  lemma NothingToWalk(rest: seq<byte>, stride: nat, client: bool)
    ensures Walk(rest, 0, stride, client) == Outcome(Delivered([], client), None)
  {
  }

  lemma CountFits(n: nat, count: nat, size: nat)
    requires count == n % 0x1_0000 && size <= 208 && (n > 0 ==> size > 0)
    ensures (count*size) % 0x1_0000_0000 == count*size
    ensures count*size == n*size <==> n < 0x1_0000
  {
    ProductAtMost(size, count, 0x1_0000);
    if n >= 0x1_0000 {
      ProductAtMost(size, count + 1, n);
    }
  }

  lemma ProductAtMost(k: nat, a: nat, b: nat)
    requires a <= b
    ensures a*k <= b*k
  {
  }

  // ---------------------------------------------------------------- appending

  lemma {:induction false} EncodeAppend(a: seq<Frame>, b: seq<Frame>)
    requires AllWellFormed(a) && AllWellFormed(b)
    ensures AllWellFormed(a + b) && EncodeAll(a + b) == EncodeAll(a) + EncodeAll(b)
  {
    hide Encode;
    assert forall i :: 0 <= i < |a + b| ==> (a + b)[i] == if i < |a| then a[i] else b[i - |a|];
  }

  lemma {:induction false} LongestAppend(a: seq<seq<byte>>, b: seq<seq<byte>>)
    ensures Longest(a + b) == Max(Longest(a), Longest(b))
  {
    if a == [] {
      assert a + b == b;
    } else {
      assert (a + b)[1..] == a[1..] + b;
      LongestAppend(a[1..], b);
    }
  }
}
