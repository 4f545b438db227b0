/** One frame of a snapshot: its bytes on the wire, and the entry object that writes and reads them. */
module SnapshotFrame {
  import opened NetTypes

  const MAX_NAME := 64
  const MAX_DATA := 128

  /** Size of the entry structure and of the packet header, which bound what is read. */
  const ENTRY_SIZE := 212
  const HEADER_SIZE := 12

  const FRAME_DATA: uint32 := 0xDADADADA
  const FRAME_ALLOC: uint32 := 0xACACACAC
  const FRAME_DEALLOC: uint32 := 0xDEDEDEDE

  datatype Frame = Frame(
    kind: uint32, netId: uint32, controller: uint32, sequence: uint32, forced: bool, name: seq<byte>, data: seq<byte>)

  /** Names a generator can hold with its terminator, and data that fits its buffer. */
  predicate WellFormed(f: Frame) {
    |f.name| <= MAX_NAME - 2 && 0 !in f.name && |f.data| <= MAX_DATA
  }

  // ---------------------------------------------------------------- numbers

  function Le16(v: uint16): seq<byte> {
    [v % 0x100, v / 0x100]
  }

  function Le32(v: uint32): (s: seq<byte>)
    ensures |s| == 4
  {
    [v % 0x100, (v / 0x100) % 0x100, (v / 0x1_0000) % 0x100, v / 0x100_0000]
  }

  function FromLe16(s: seq<byte>): uint16
    requires |s| == 2
  {
    var b0: int, b1: int := s[0], s[1];
    b0 + 0x100*b1
  }

  function FromLe32(s: seq<byte>): uint32
    requires |s| == 4
  {
    var b0: int, b1: int, b2: int, b3: int := s[0], s[1], s[2], s[3];
    b0 + 0x100*b1 + 0x1_0000*b2 + 0x100_0000*b3
  }

  lemma NumbersRoundTrip(v: uint32, w: uint16)
    ensures FromLe32(Le32(v)) == v && FromLe16(Le16(w)) == w
  {
    var q1 := v / 0x100;
    var q2 := v / 0x1_0000;
    assert q2 == q1 / 0x100;
    assert v / 0x100_0000 == q2 / 0x100;
    assert v == 0x100*q1 + v % 0x100;
    assert q1 == 0x100*q2 + q1 % 0x100;
    assert q2 == 0x100*(q2 / 0x100) + q2 % 0x100;
  }

  // ---------------------------------------------------------------- writing and reading

  function Zeros(n: nat): (z: seq<byte>)
    ensures |z| == n
  {
    seq(n, i => 0)
  }

  /** Data is always sent at full size. */
  function Extended(data: seq<byte>): (d: seq<byte>)
    requires |data| <= MAX_DATA
    ensures |d| == MAX_DATA
  {
    data + Zeros(MAX_DATA - |data|)
  }

  function Flag(b: bool): byte {
    if b then 1 else 0
  }

  /** The bytes before the name: four numbers and the flag. */
  function Fixed(f: Frame): (s: seq<byte>)
    ensures |s| == 17
  {
    Le32(f.kind) + Le32(f.netId) + Le32(f.controller) + Le32(f.sequence) + [Flag(f.forced)]
  }

  function Encode(f: Frame): (s: seq<byte>)
    requires |f.data| <= MAX_DATA
    ensures |s| == 18 + |f.name| + MAX_DATA
  {
    Fixed(f) + f.name + [0] + Extended(f.data)
  }

  /** The frame as a receiver sees it. */
  function Received(f: Frame): Frame
    requires |f.data| <= MAX_DATA
  {
    f.(data := Extended(f.data))
  }

  /** How many name bytes are read: up to the first zero, and 64 at most. */
  function NameLength(s: seq<byte>, n: nat): (r: Result<nat>)
    requires n <= MAX_NAME
    ensures r.Ok? ==> n <= r.value <= MAX_NAME && r.value <= |s| && forall i :: n <= i < r.value ==> s[i] != 0
    ensures r.Ok? && r.value < MAX_NAME ==> r.value < |s| && s[r.value] == 0
    ensures r.Err? ==> r.reason == OutOfBounds && |s| < MAX_NAME && forall i :: n <= i < |s| ==> s[i] != 0
    decreases MAX_NAME - n
  {
    if n == MAX_NAME then (if n <= |s| then Ok(n) else Err(OutOfBounds))
    else if n >= |s| then Err(OutOfBounds)
    else if s[n] == 0 then Ok(n)
    else NameLength(s, n + 1)
  }

  /**
   * Reading a frame at the front of what is left of a packet. Only the stated length is checked;
   * the fields are then read as far as they go, and running past the packet is an error of its own.
   */
  function Decode(rest: seq<byte>, length: nat): Result<Frame> {
    if length < 10 || length > ENTRY_SIZE + HEADER_SIZE then Err(SizeMismatch)
    else if |rest| < 17 then Err(OutOfBounds)
    else
      match NameLength(rest[17..], 0)
      case Err(e) => Err(e)
      case Ok(n) =>
        if |rest| < 18 + n + MAX_DATA then Err(OutOfBounds)
        else Ok(Frame(
          FromLe32(rest[..4]), FromLe32(rest[4..8]), FromLe32(rest[8..12]), FromLe32(rest[12..16]),
          rest[16] != 0, rest[17..17 + n], rest[18 + n..18 + n + MAX_DATA]))
  }

  /** Where the name ends is where its terminator is. */
  lemma {:induction false} NameLengthIs(s: seq<byte>, n: nat, k: nat)
    requires n <= k < MAX_NAME && k < |s|
    requires s[k] == 0 && forall i :: n <= i < k ==> s[i] != 0
    ensures NameLength(s, n) == Ok(k)
    decreases k - n
  {
    if n < k {
      NameLengthIs(s, n + 1, k);
    }
  }

  /** The layout of an encoded frame, position by position. */
  lemma Layout(f: Frame, rest: seq<byte>)
    requires |f.data| <= MAX_DATA && Encode(f) <= rest
    ensures var n := |f.name|;
      && |rest| >= 18 + n + MAX_DATA
      && rest[..4] == Le32(f.kind) && rest[4..8] == Le32(f.netId)
      && rest[8..12] == Le32(f.controller) && rest[12..16] == Le32(f.sequence) && rest[16] == Flag(f.forced)
      && rest[17..17 + n] == f.name && rest[17 + n] == 0 && rest[18 + n..18 + n + MAX_DATA] == Extended(f.data)
  {
    hide Le32, Extended;
    var e, n := Encode(f), |f.name|;
    assert rest[..|e|] == e;
    assert e[..17] == Fixed(f) && e[17..17 + n] == f.name && e[17 + n] == 0 && e[18 + n..] == Extended(f.data);
    assert rest[..17] == e[..17];
    assert rest[17..17 + n] == e[17..17 + n] && rest[18 + n..18 + n + MAX_DATA] == e[18 + n..];
    FixedLayout(f, rest);
  }

  lemma FixedLayout(f: Frame, rest: seq<byte>)
    requires Fixed(f) <= rest
    ensures rest[..4] == Le32(f.kind) && rest[4..8] == Le32(f.netId)
    ensures rest[8..12] == Le32(f.controller) && rest[12..16] == Le32(f.sequence) && rest[16] == Flag(f.forced)
  {
    hide Le32;
    var w := Fixed(f);
    assert w[..4] == Le32(f.kind) && w[4..8] == Le32(f.netId) && w[8..12] == Le32(f.controller)
      && w[12..16] == Le32(f.sequence) && w[16] == Flag(f.forced);
    assert rest[..4] == w[..4] && rest[4..8] == w[4..8] && rest[8..12] == w[8..12] && rest[12..16] == w[12..16]
      && rest[16] == w[16];
  }

  /**
   * Reading back what was written gives the frame with its data extended by zeros, whatever
   * follows it in the packet.
   */
  lemma FrameRoundTrip(f: Frame, rest: seq<byte>, length: nat)
    requires WellFormed(f) && 10 <= length <= ENTRY_SIZE + HEADER_SIZE && Encode(f) <= rest
    ensures Decode(rest, length) == Ok(Received(f))
  {
    hide Le32, FromLe32, Encode, Fixed, Extended;
    Layout(f, rest);
    NumbersRoundTrip(f.kind, 0);
    NumbersRoundTrip(f.netId, 0);
    NumbersRoundTrip(f.controller, 0);
    NumbersRoundTrip(f.sequence, 0);
    NameIsRead(f.name, rest[17..]);
  }

  lemma NameIsRead(name: seq<byte>, s: seq<byte>)
    requires |name| < MAX_NAME && 0 !in name && name + [0] <= s
    ensures NameLength(s, 0) == Ok(|name|)
  {
    var t := name + [0];
    assert t == s[..|t|];
    assert forall i :: 0 <= i < |name| ==> s[i] == t[i] == name[i];
    assert s[|name|] == t[|name|];
    NameLengthIs(s, 0, |name|);
  }

  // ---------------------------------------------------------------- byte for byte

  /** What a frame is on the wire, byte for byte: numbers lowest byte first. */
  lemma WireFormat(f: Frame)
    requires |f.data| <= 128
    ensures var e, n, m := Encode(f), |f.name|, |f.data|;
      && |e| == 146 + n
      && e[..4] == [f.kind % 0x100, f.kind / 0x100 % 0x100, f.kind / 0x1_0000 % 0x100, f.kind / 0x100_0000]
      && e[4..8] == [f.netId % 0x100, f.netId / 0x100 % 0x100, f.netId / 0x1_0000 % 0x100, f.netId / 0x100_0000]
      && e[8..12] == [f.controller % 0x100, f.controller / 0x100 % 0x100, f.controller / 0x1_0000 % 0x100,
        f.controller / 0x100_0000]
      && e[12..16] == [f.sequence % 0x100, f.sequence / 0x100 % 0x100, f.sequence / 0x1_0000 % 0x100,
        f.sequence / 0x100_0000]
      && e[16] == (if f.forced then 1 else 0) && e[17..17 + n] == f.name && e[17 + n] == 0
      && e[18 + n..18 + n + m] == f.data && forall i :: 18 + n + m <= i < 146 + n ==> e[i] == 0
  {
    Layout(f, Encode(f));
    DataPlaces(f);
    hide Encode;
  }

  /** A frame as received has its data followed by zeros, 128 bytes in all, and is otherwise the same. */
  lemma ReceivedIs(f: Frame)
    requires |f.data| <= 128
    ensures var g := Received(f);
      && g == f.(data := g.data) && |g.data| == 128 && f.data <= g.data
      && forall i :: |f.data| <= i < 128 ==> g.data[i] == 0
  {
  }

  lemma DataPlaces(f: Frame)
    requires |f.data| <= 128
    ensures var e, n, m := Encode(f), |f.name|, |f.data|;
      e[18 + n..18 + n + m] == f.data && forall i :: 18 + n + m <= i < 146 + n ==> e[i] == 0
  {
    hide Fixed;
  }

  /**
   * A frame is read if and only if the stated length lies between 10 and 224 and what is left of the
   * packet holds a name of at most 64 bytes, ended by a zero unless it has all 64, with the byte
   * behind it and 128 bytes of data.
   */
  lemma ReadIff(rest: seq<byte>, length: nat)
    ensures Decode(rest, length).Ok? <==>
      && 10 <= length <= 224
      && exists n :: 0 <= n <= 64 && 146 + n <= |rest| && EndsAt(rest, n)
    ensures forall n :: 10 <= length <= 224 && 0 <= n <= 64 && 146 + n <= |rest| && EndsAt(rest, n) ==>
      && Decode(rest, length).Ok?
      && Decode(rest, length).value.name == rest[17..17 + n] && Decode(rest, length).value.data == rest[18 + n..146 + n]
  {
    hide FromLe32;
    if 10 <= length <= 224 && |rest| >= 17 {
      var tail := rest[17..];
      forall n | 0 <= n <= 64 && 146 + n <= |rest| && EndsAt(rest, n) ensures NameLength(tail, 0) == Ok(n) {
        assert forall i :: 0 <= i < n ==> tail[i] == rest[17..17 + n][i];
        if n < 64 {
          NameLengthIs(tail, 0, n);
        } else {
          FullName(tail, 0);
        }
      }
      var r := NameLength(tail, 0);
      if r.Ok? && 146 + r.value <= |rest| {
        assert forall i :: 0 <= i < r.value ==> rest[17..17 + r.value][i] == tail[i];
        assert EndsAt(rest, r.value);
      }
    }
  }

  /** The name ends at its n-th byte. */
  predicate EndsAt(rest: seq<byte>, n: nat)
    requires 17 + n < |rest|
  {
    (n == 64 || rest[17 + n] == 0) && 0 !in rest[17..17 + n]
  }

  lemma {:induction false} FullName(s: seq<byte>, n: nat)
    requires n <= 64 <= |s| && forall i :: n <= i < 64 ==> s[i] != 0
    ensures NameLength(s, n) == Ok(64)
    decreases 64 - n
  {
    if n < 64 {
      FullName(s, n + 1);
    }
  }
}
