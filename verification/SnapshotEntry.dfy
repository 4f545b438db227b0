/** The entry object behind a frame: its fixed buffers, its setters, and the byte-pushing loops. */
module SnapshotEntry {
  import opened NetTypes
  import opened SnapshotFrame

  /** The C string in a buffer: the bytes before its first zero. */
  function CString(buffer: seq<byte>): (s: seq<byte>)
    ensures s <= buffer && 0 !in s
    ensures s == buffer || (|s| < |buffer| && buffer[|s|] == 0)
  {
    if buffer == [] || buffer[0] == 0 then [] else [buffer[0]] + CString(buffer[1..])
  }

  lemma {:induction false} CStringIs(buffer: seq<byte>, s: seq<byte>)
    requires s <= buffer && 0 !in s && (s == buffer || buffer[|s|] == 0)
    ensures CString(buffer) == s
  {
    if s == [] {
    } else {
      assert s[1..] <= buffer[1..];
      CStringIs(buffer[1..], s[1..]);
    }
  }

  /** A name buffer after set_name: the terminator goes one place beyond where it belongs. */
  function WithName(buffer: seq<byte>, s: seq<byte>): seq<byte>
    requires |buffer| == MAX_NAME && |s| <= MAX_NAME - 2
  {
    (s + buffer[|s|..])[|s| + 1 := 0]
  }

  /** The name reads back exactly when the byte behind it was zero, as on a fresh entry. */
  lemma NameSetIff(buffer: seq<byte>, s: seq<byte>)
    requires |buffer| == MAX_NAME && |s| <= MAX_NAME - 2 && 0 !in s
    ensures CString(WithName(buffer, s)) == s <==> buffer[|s|] == 0
  {
    var after := WithName(buffer, s);
    assert after[..|s|] == s && after[|s|] == buffer[|s|];
    if buffer[|s|] == 0 {
      CStringIs(after, s);
    }
  }

  /** The copy loop of the setters. */
  method CopyBytes(target: array<byte>, bytes: seq<byte>)
    requires |bytes| <= target.Length
    modifies target
    ensures target[..] == bytes + old(target[..])[|bytes|..]
  {
    var i := 0;
    while i < |bytes|
      invariant 0 <= i <= |bytes|
      invariant forall k :: 0 <= k < i ==> target[k] == bytes[k]
      invariant forall k :: i <= k < target.Length ==> target[k] == old(target[k])
    {
      target[i] := bytes[i];
      i := i + 1;
    }
  }

  /** The push_back loop of the writer. */
  method PushBytes(stream: seq<byte>, source: seq<byte>, n: nat) returns (out: seq<byte>)
    requires n <= |source|
    ensures out == stream + source[..n]
  {
    out := stream;
    var i := 0;
    while i < n
      invariant 0 <= i <= n && out == stream + source[..i]
    {
      out := out + [source[i]];
      i := i + 1;
    }
  }

  method PushZeros(stream: seq<byte>, from: nat, to: nat) returns (out: seq<byte>)
    requires from <= to
    ensures out == stream + Zeros(to - from)
  {
    out := stream;
    var i := from;
    while i < to
      invariant from <= i <= to && out == stream + Zeros(i - from)
    {
      out := out + [0];
      i := i + 1;
    }
  }

  class SnapshotEntList {
    var frameType: uint32
    var netId: uint32
    var controller: uint32
    var sequence: uint32
    var forced: bool
    const name: array<byte>
    /** The data buffer, with the three padding bytes that follow it in the structure. */
    const data: array<byte>
    var typeSize: nat

    ghost predicate Valid()
      reads this, name, data
    {
      && name.Length == MAX_NAME && data.Length == MAX_DATA + 3 && name != data
      && typeSize <= MAX_DATA
      && 0 in name[..]
    }

    /** What Write sends: the data that was set. */
    ghost function Contents(): Frame
      requires Valid()
      reads this, name, data
    {
      Frame(frameType, netId, controller, sequence, forced, CString(name[..]), data[..typeSize])
    }

    constructor (frameType: uint32)
      ensures Valid() && fresh(name) && fresh(data)
      ensures this.frameType == frameType && netId == 0 && controller == 512 && sequence == 0 && !forced
        && typeSize == 0
      ensures name[..] == Zeros(MAX_NAME) && data[..] == Zeros(MAX_DATA + 3)
    {
      this.frameType := frameType;
      netId, sequence, forced, typeSize := 0, 0, false, 0;
      controller := 512;
      name := new byte[MAX_NAME](i => 0);
      data := new byte[MAX_DATA + 3](i => 0);
      new;
      assert name[0] == 0;
    }

    method SetName(s: seq<byte>)
      requires Valid() && |s| <= MAX_NAME - 2
      modifies name
      ensures Valid() && name[..] == WithName(old(name[..]), s)
    {
      CopyBytes(name, s);
      name[|s| + 1] := 0;
      assert name[..][|s| + 1] == 0;
    }

    method SetData(bytes: seq<byte>)
      requires Valid() && |bytes| <= MAX_DATA
      modifies this`typeSize, data
      ensures Valid() && typeSize == |bytes| && data[..] == bytes + old(data[..])[|bytes|..]
    {
      CopyBytes(data, bytes);
      typeSize := |bytes|;
    }

    method NameSize() returns (n: nat)
      requires Valid()
      ensures n == |CString(name[..])|
    {
      n := 0;
      while n < name.Length && name[n] != 0
        invariant 0 <= n <= name.Length && 0 !in name[..n]
      {
        n := n + 1;
      }
      CStringIs(name[..], name[..n]);
    }

    method WriteFixed(stream: seq<byte>) returns (out: seq<byte>)
      requires Valid()
      ensures out == stream + Fixed(Contents())
    {
      hide Le32;
      out := PushBytes(stream, Le32(frameType), 4);
      out := PushBytes(out, Le32(netId), 4);
      out := PushBytes(out, Le32(controller), 4);
      out := PushBytes(out, Le32(sequence), 4);
      out := out + [Flag(forced)];
    }

    /** Pushes the entry's bytes onto a stream. */
    method Write(stream: seq<byte>) returns (out: seq<byte>)
      requires Valid()
      ensures out == stream + Encode(Contents())
    {
      hide CString, Fixed;
      ghost var f := Contents();
      out := WriteFixed(stream);
      var n := NameSize();
      assert name[..n + 1] == f.name + [0];
      out := PushBytes(out, name[..], n + 1);
      out := PushBytes(out, data[..], typeSize);
      out := PushZeros(out, typeSize, MAX_DATA);
      assert out == stream + (Fixed(f) + f.name + [0] + (f.data + Zeros(MAX_DATA - typeSize)));
    }

    /** The name loop: stops at a zero or after 64 bytes, and runs past nothing but the packet. */
    method ReadName(tail: seq<byte>) returns (failed: bool, n: nat)
      requires name.Length == MAX_NAME && name[..] == Zeros(MAX_NAME)
      modifies name
      ensures NameLength(tail, 0) == if failed then Err(OutOfBounds) else Ok(n)
      ensures !failed ==> n <= |tail| && CString(name[..]) == tail[..n]
    {
      failed, n := false, 0;
      while n < MAX_NAME
        invariant n <= MAX_NAME && n <= |tail|
        invariant forall j :: 0 <= j < n ==> tail[j] != 0 && name[j] == tail[j]
        invariant forall j :: n <= j < MAX_NAME ==> name[j] == 0
        invariant NameLength(tail, 0) == NameLength(tail, n)
      {
        if n >= |tail| {
          failed := true;
          return;
        }
        if tail[n] == 0 {
          break;
        }
        name[n] := tail[n];
        n := n + 1;
      }
      CStringIs(name[..], tail[..n]);
    }

    method ReadBytes(bytes: seq<byte>)
      requires data.Length == MAX_DATA + 3 && |bytes| == MAX_DATA
      modifies data
      ensures data[..MAX_DATA] == bytes
    {
      CopyBytes(data, bytes);
      data[MAX_DATA + 1] := 0;
    }

    /** Fills a fresh entry from the front of what is left of a packet. */
    method ReadData(rest: seq<byte>, length: nat) returns (failed: Option<Failure>)
      requires Valid() && name[..] == Zeros(MAX_NAME)
      modifies this, name, data
      ensures Decode(rest, length) == if failed.Some? then Err(failed.value) else
        Ok(Frame(frameType, netId, controller, sequence, forced, CString(name[..]), data[..MAX_DATA]))
    {
      hide FromLe32, CString, NameLength;
      if length < 10 || length > ENTRY_SIZE + HEADER_SIZE {
        return Some(SizeMismatch);
      }
      if |rest| < 17 {
        return Some(OutOfBounds);
      }
      frameType := FromLe32(rest[..4]);
      netId := FromLe32(rest[4..8]);
      controller := FromLe32(rest[8..12]);
      sequence := FromLe32(rest[12..16]);
      forced := rest[16] != 0;
      var past, n := ReadName(rest[17..]);
      if past || |rest| < 18 + n + MAX_DATA {
        return Some(OutOfBounds);
      }
      assert rest[17..][..n] == rest[17..17 + n];
      ReadBytes(rest[18 + n..18 + n + MAX_DATA]);
      failed := None;
    }
  }

  /** A fresh entry, filled by its setters and written to an empty buffer. */
  method WriteEntry(f: Frame) returns (buffer: seq<byte>)
    requires WellFormed(f)
    ensures buffer == Encode(f)
  {
    hide Encode, CString;
    var generator := new SnapshotEntList(f.kind);
    generator.SetName(f.name);
    NameSetIff(Zeros(MAX_NAME), f.name);
    generator.netId := f.netId;
    generator.controller := f.controller;
    generator.SetData(f.data);
    generator.sequence := f.sequence;
    generator.forced := f.forced;
    assert generator.data[..generator.typeSize] == f.data;
    assert generator.Contents() == f;
    buffer := generator.Write([]);
    assert [] + Encode(f) == Encode(f);
  }
}
