/**
 * A replicated variable: dirty flags, sequence numbers and snapshots, and what they guarantee
 * between a sender and a receiver over a transport that loses, repeats and reorders frames.
 */
module NetVariable {
  import opened NetTypes
  import opened SnapshotFrame

  /** The fields of a variable that change. The value is its bytes, always the same number. */
  datatype VarState = VarState(
    data: seq<byte>, changed: bool, locked: bool, changeForced: bool, sequence: uint32, changes: uint32,
      checkSequence: bool)

  /** A variable as constructed: zero-filled, and marked changed so that it is sent once. */
  function Initial(size: nat): VarState {
    VarState(Zeros(size), true, false, false, 0, 0, false)
  }

  function Next(n: uint32): uint32 {
    (n + 1) % 0x1_0000_0000
  }

  /** The typed setter: nothing happens on an inactive object or for an equal value. */
  function SetTyped(s: VarState, active: bool, value: seq<byte>): VarState {
    if !active || s.data == value then s
    else s.(data := value, changed := true, changeForced := true, changes := Next(s.changes))
  }

  /** The raw setter overwrites as many bytes as it is given, unless the variable is locked. */
  function SetRaw(s: VarState, bytes: seq<byte>): VarState
    requires |bytes| <= |s.data|
  {
    if s.locked then s
    else s.(data := bytes + s.data[|bytes|..], changed := true, changes := Next(s.changes))
  }

  predicate CheckSequence(s: VarState, sequence: uint32) {
    !s.checkSequence || s.sequence <= sequence
  }

  /** What a received frame does to the variable it names. */
  function Receive(s: VarState, f: Frame, local: bool): VarState
    requires |s.data| <= |f.data|
  {
    if (local && !f.forced) || !CheckSequence(s, f.sequence) then s
    else SetRaw(s.(sequence := f.sequence), f.data[..|s.data|])
  }

  predicate Takes(s: VarState, forced: bool) {
    forced || s.changed
  }

  function Snapshot(s: VarState, forced: bool): VarState {
    if Takes(s, forced) then s.(sequence := Next(s.sequence), changed := false, changeForced := false) else s
  }

  /** The frame a snapshot sends. A data frame leaves the controller at its default. */
  function FrameOf(s: VarState, netId: uint32, name: seq<byte>, forced: bool): Frame {
    Frame(FRAME_DATA, netId, 512, Next(s.sequence), s.changeForced || forced, name, s.data)
  }

  // ---------------------------------------------------------------- runs

  datatype Op =
    | Typed(active: bool, value: seq<byte>)
    | Raw(bytes: seq<byte>)
    | Invalidate
    | Lock
    | Unlock
    | SetSequenceCheck(on: bool)
    | Receipt(frame: Frame, local: bool)
    | Take(forced: bool)

  /** Values fit the variable, as their types make sure; frames carry the full data buffer. */
  predicate Fits(size: nat, op: Op) {
    match op
    case Typed(_, v) => |v| == size
    case Raw(b) => |b| <= size
    case Receipt(f, _) => size <= |f.data|
    case _ => true
  }

  function Step(s: VarState, op: Op): (t: VarState)
    requires Fits(|s.data|, op)
    ensures |t.data| == |s.data|
  {
    match op
    case Typed(active, v) => SetTyped(s, active, v)
    case Raw(b) => SetRaw(s, b)
    case Invalidate => s.(changed := true, changeForced := true)
    case Lock => s.(locked := true)
    case Unlock => s.(locked := false)
    case SetSequenceCheck(on) => s.(checkSequence := on)
    case Receipt(f, local) => Receive(s, f, local)
    case Take(forced) => Snapshot(s, forced)
  }

  function Emits(s: VarState, op: Op, netId: uint32, name: seq<byte>): (sent: seq<Frame>)
    ensures forall i :: 0 <= i < |sent| ==> |sent[i].data| == |s.data|
  {
    if op.Take? && Takes(s, op.forced) then [FrameOf(s, netId, name, op.forced)] else []
  }

  predicate AllFit(size: nat, ops: seq<Op>) {
    forall i :: 0 <= i < |ops| ==> Fits(size, ops[i])
  }

  function Run(s: VarState, ops: seq<Op>): (t: VarState)
    requires AllFit(|s.data|, ops)
    ensures |t.data| == |s.data|
    decreases |ops|
  {
    if ops == [] then s else Run(Step(s, ops[0]), ops[1..])
  }

  /** Every frame a run emits, in order. */
  function Emitted(s: VarState, ops: seq<Op>, netId: uint32, name: seq<byte>): (sent: seq<Frame>)
    requires AllFit(|s.data|, ops)
    ensures forall i :: 0 <= i < |sent| ==> |sent[i].data| == |s.data|
    decreases |ops|
  {
    if ops == [] then [] else Emits(s, ops[0], netId, name) + Emitted(Step(s, ops[0]), ops[1..], netId, name)
  }

  // ---------------------------------------------------------------- delta soundness

  /** Not marked changed means: the last frame sent carries the current value. */
  predicate Sound(s: VarState, sent: seq<Frame>) {
    !s.changed ==> sent != [] && sent[|sent| - 1].data == s.data
  }

  lemma StepKeepsSound(s: VarState, sent: seq<Frame>, op: Op, netId: uint32, name: seq<byte>)
    requires Fits(|s.data|, op) && Sound(s, sent)
    ensures Sound(Step(s, op), sent + Emits(s, op, netId, name))
  {
    if Emits(s, op, netId, name) == [] {
      assert sent + Emits(s, op, netId, name) == sent;
    }
  }

  lemma {:induction false} RunKeepsSound(s: VarState, sent: seq<Frame>, ops: seq<Op>, netId: uint32, name: seq<byte>)
    requires AllFit(|s.data|, ops) && Sound(s, sent)
    ensures Sound(Run(s, ops), sent + Emitted(s, ops, netId, name))
    decreases |ops|
  {
    if ops == [] {
      assert sent + Emitted(s, ops, netId, name) == sent;
    } else {
      var first, rest := Emits(s, ops[0], netId, name), Emitted(Step(s, ops[0]), ops[1..], netId, name);
      StepKeepsSound(s, sent, ops[0], netId, name);
      RunKeepsSound(Step(s, ops[0]), sent + first, ops[1..], netId, name);
      assert sent + Emitted(s, ops, netId, name) == sent + first + rest;
    }
  }

  /**
   * Over every run, of any setters, locks, receptions and snapshots, a variable that is not
   * marked changed has its current value in the last frame it sent.
   */
  lemma DeltaSound(size: nat, ops: seq<Op>, netId: uint32, name: seq<byte>)
    requires AllFit(size, ops)
    ensures Sound(Run(Initial(size), ops), Emitted(Initial(size), ops, netId, name))
  {
    RunKeepsSound(Initial(size), [], ops, netId, name);
    assert [] + Emitted(Initial(size), ops, netId, name) == Emitted(Initial(size), ops, netId, name);
  }

  // ---------------------------------------------------------------- sequence numbers

  /** Taking the snapshot at the last number wraps to zero; nothing else lowers an unsent number. */
  predicate NoWrap(s: VarState, op: Op) {
    op.Take? && Takes(s, op.forced) ==> s.sequence < 0xFFFF_FFFF
  }

  /** An unchecked reception can put the number back. */
  predicate NoLower(s: VarState, op: Op) {
    op.Receipt? && !(op.local && !op.frame.forced) ==> s.checkSequence || s.sequence <= op.frame.sequence
  }

  /**
   * One step keeps the number from falling, and raises it when a frame is sent, iff it neither
   * wraps nor is put back.
   */
  lemma StepKeepsOrder(s: VarState, op: Op, netId: uint32, name: seq<byte>)
    requires Fits(|s.data|, op)
    ensures NoWrap(s, op) && NoLower(s, op)
      <==> s.sequence <= Step(s, op).sequence && forall f :: f in Emits(s, op, netId, name) ==> s.sequence < f.sequence
  {
    if op.Take? && Takes(s, op.forced) {
      assert FrameOf(s, netId, name, op.forced) in Emits(s, op, netId, name);
    }
  }

  predicate Orderly(s: VarState, ops: seq<Op>)
    requires AllFit(|s.data|, ops)
    decreases |ops|
  {
    ops == [] || (NoWrap(s, ops[0]) && NoLower(s, ops[0]) && Orderly(Step(s, ops[0]), ops[1..]))
  }

  predicate Increasing(frames: seq<Frame>) {
    forall i, j :: 0 <= i < j < |frames| ==> frames[i].sequence < frames[j].sequence
  }

  /** The frames of an orderly run carry strictly increasing numbers. */
  lemma {:induction false} NumbersIncrease(s: VarState, ops: seq<Op>, netId: uint32, name: seq<byte>)
    requires AllFit(|s.data|, ops) && Orderly(s, ops)
    ensures var sent := Emitted(s, ops, netId, name);
      Increasing(sent) && s.sequence <= Run(s, ops).sequence
      && forall i :: 0 <= i < |sent| ==> s.sequence < sent[i].sequence <= Run(s, ops).sequence
    decreases |ops|
  {
    if ops == [] {
    } else {
      StepKeepsOrder(s, ops[0], netId, name);
      NumbersIncrease(Step(s, ops[0]), ops[1..], netId, name);
    }
  }

  // ---------------------------------------------------------------- last writer wins

  predicate Arriving(size: nat, frames: seq<Frame>) {
    forall i :: 0 <= i < |frames| ==> size <= |frames[i].data|
  }

  function ReceiveAll(s: VarState, arrivals: seq<Frame>): (t: VarState)
    requires Arriving(|s.data|, arrivals)
    ensures |t.data| == |s.data| && t.checkSequence == s.checkSequence && t.locked == s.locked
    decreases |arrivals|
  {
    if arrivals == [] then s
    else
      var k := |arrivals| - 1;
      Receive(ReceiveAll(s, arrivals[..k]), arrivals[k], false)
  }

  /** Frames with the same number are copies of one frame. */
  predicate Copies(frames: seq<Frame>) {
    forall i, j :: 0 <= i < |frames| && 0 <= j < |frames| && frames[i].sequence == frames[j].sequence ==>
      frames[i] == frames[j]
  }

  predicate Highest(f: Frame, frames: seq<Frame>) {
    f in frames && forall i :: 0 <= i < |frames| ==> frames[i].sequence <= f.sequence
  }

  /** The stored number never decreases, and nothing older than it has any effect. */
  lemma {:induction false} LastWriterWins(s: VarState, arrivals: seq<Frame>, top: Frame)
    requires s.checkSequence && Arriving(|s.data|, arrivals) && Copies(arrivals) && Highest(top, arrivals)
    ensures var t := ReceiveAll(s, arrivals);
      && s.sequence <= t.sequence
      && t.sequence == (if top.sequence < s.sequence then s.sequence else top.sequence)
      && t.data == (if top.sequence < s.sequence || s.locked then s.data else top.data[..|s.data|])
    decreases |arrivals|
  {
    var k := |arrivals| - 1;
    var earlier, last := arrivals[..k], arrivals[k];
    if k == 0 {
      assert ReceiveAll(s, earlier) == s;
    } else {
      var best := HighestOf(earlier);
      LastWriterWins(s, earlier, best);
    }
  }

  lemma {:induction false} HighestOf(frames: seq<Frame>) returns (f: Frame)
    requires frames != []
    ensures Highest(f, frames)
    decreases |frames|
  {
    f := frames[0];
    if |frames| > 1 {
      var g := HighestOf(frames[1..]);
      if g.sequence > f.sequence {
        f := g;
      }
      assert forall i :: 1 <= i < |frames| ==> frames[i] == frames[1..][i - 1];
    }
  }

  // ---------------------------------------------------------------- end to end

  /** Every arrival is some frame that was sent, with its data at full size. */
  predicate Delivers(sent: seq<Frame>, arrivals: seq<Frame>)
    requires forall i :: 0 <= i < |sent| ==> |sent[i].data| <= MAX_DATA
  {
    forall i :: 0 <= i < |arrivals| ==> exists j :: 0 <= j < |sent| && arrivals[i] == Received(sent[j])
  }

  /**
   * A sender after any orderly run, not marked changed, and any receiver with sequence checking
   * after any arrivals of the sender's frames, the last one among them: lost, repeated, in any
   * order. The receiver holds the sender's value if and only if it did before, or it is unlocked
   * and had not seen a higher number than the sender's last.
   */
  lemma ReceiverCatchesUp(
    size: nat, ops: seq<Op>, netId: uint32, name: seq<byte>, receiver: VarState, arrivals: seq<Frame>)
    requires size < MAX_DATA && AllFit(size, ops) && Orderly(Initial(size), ops)
    requires receiver.checkSequence && |receiver.data| == size
    requires var sent := Emitted(Initial(size), ops, netId, name);
      && Delivers(sent, arrivals)
      && sent != [] && Received(sent[|sent| - 1]) in arrivals
    requires Arriving(size, arrivals) && !Run(Initial(size), ops).changed
    ensures var sent, value := Emitted(Initial(size), ops, netId, name), Run(Initial(size), ops).data;
      ReceiveAll(receiver, arrivals).data == value
      <==> receiver.data == value || (!receiver.locked && receiver.sequence <= sent[|sent| - 1].sequence)
  {
    var s := Initial(size);
    var sent := Emitted(s, ops, netId, name);
    NumbersIncrease(s, ops, netId, name);
    DeltaSound(size, ops, netId, name);
    ArrivalsAreCopies(sent, arrivals);
    hide Emitted, Run, Orderly, AllFit, Delivers, Increasing, Copies, Highest;
    var top := Received(sent[|sent| - 1]);
    LastWriterWins(receiver, arrivals, top);
    assert top.data[..size] == sent[|sent| - 1].data;
  }

  /** What arrives from numbered frames is made of copies of them, the last one the highest. */
  lemma ArrivalsAreCopies(sent: seq<Frame>, arrivals: seq<Frame>)
    requires forall i :: 0 <= i < |sent| ==> |sent[i].data| <= MAX_DATA
    requires Increasing(sent) && Delivers(sent, arrivals)
    requires sent != [] && Received(sent[|sent| - 1]) in arrivals
    ensures Copies(arrivals) && Highest(Received(sent[|sent| - 1]), arrivals)
  {
    hide Extended;
  }
}
