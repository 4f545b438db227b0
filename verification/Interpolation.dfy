/** The interpolated vector: a ring of four received positions, and the point shown between updates. */
module Interpolation {
  import opened NetTypes
  import opened RealMath
  import opened Vector3
  import opened Frames
  import opened NetVariable

  const MAX_SCALE := 1.2
  const BANDING_DISTANCE := 40.0
  const MAX_DISTANCE := 18.0

  /** The wrapping index for the four slots, on 32-bit unsigned operands. */
  function ModWrap(a: uint32): uint32 {
    ((a % 4 + 4) % 0x1_0000_0000) % 4
  }

  function After(active: uint32): uint32 {
    ModWrap((active + 1) % 0x1_0000_0000)
  }

  /** One back; from 0 the unsigned subtraction wraps. */
  function Before(active: uint32): uint32 {
    ModWrap((active - 1) % 0x1_0000_0000)
  }

  lemma SmallRemainder(a: int)
    requires 0 <= a < 8
    ensures a % 0x1_0000_0000 == a
  {
  }

  lemma WrapIsRemainder(a: uint32)
    ensures ModWrap(a) == a % 4
  {
    SmallRemainder(a % 4 + 4);
  }

  lemma Neighbours(active: uint32)
    requires active < 4
    ensures After(active) == if active == 3 then 0 else active + 1
    ensures Before(active) == if active == 0 then 3 else active - 1
  {
    SmallRemainder(active + 1);
    WrapIsRemainder(active + 1);
    WrapIsRemainder((active - 1) % 0x1_0000_0000);
    if active != 0 {
      SmallRemainder(active - 1);
    }
  }

  /** The index stays in the ring, and one back from the next slot is the slot it was. */
  lemma RingLaw(active: uint32)
    requires active < 4
    ensures After(active) < 4 && Before(active) < 4 && After(active) != active
    ensures Before(After(active)) == active && After(Before(active)) == active
  {
    Neighbours(active);
    hide After, Before;
    Neighbours(After(active));
    Neighbours(Before(active));
  }

  /** Durations are halved towards zero. */
  function Half(dt: int): int {
    if dt < 0 then -(-dt / 2) else dt / 2
  }

  datatype Buffered = Buffered(
    data: Vec3, buffers: seq<Vec3>, active: uint32, changes: uint32, changed: bool, locked: bool,
    seenPrevious: bool, seenFrame: bool, timeFrame: uint32, elapsed: int)

  predicate InRing(s: Buffered) {
    |s.buffers| == 4 && s.active < 4
  }

  function From(s: Buffered): Vec3
    requires InRing(s)
  {
    RingLaw(s.active);
    s.buffers[Before(s.active)]
  }

  function To(s: Buffered): Vec3
    requires InRing(s)
  {
    s.buffers[s.active]
  }

  function Heading(s: Buffered): Vec3
    requires InRing(s)
  {
    Sub3(To(s), From(s))
  }

  /** The part of the step that has passed; the elapsed count is read as unsigned. */
  function Ratio(s: Buffered): real
    requires s.timeFrame != 0
  {
    (s.elapsed % 0x1_0000_0000_0000_0000) as real / s.timeFrame as real
  }

  predicate Interpolates(sqrt: real -> real, s: Buffered)
    requires InRing(s)
  {
    s.changes > 1 && Length(sqrt, Heading(s)) <= MAX_DISTANCE && s.seenFrame && s.timeFrame != 0
  }

  /** The point shown, on a replica. */
  function Position(sqrt: real -> real, s: Buffered): Vec3
    requires InRing(s)
  {
    if Interpolates(sqrt, s) && Ratio(s) <= MAX_SCALE then Add3(From(s), Scale3(Ratio(s), Heading(s))) else To(s)
  }

  function Ticked(sqrt: real -> real, s: Buffered, dt: int): (t: Buffered)
    requires InRing(s)
    ensures InRing(t)
  {
    if Interpolates(sqrt, s) then s.(elapsed := s.elapsed + Half(dt)) else s
  }

  /** A received position on a replica: the point shown becomes where the next step starts, when it is near enough. */
  function Received(sqrt: real -> real, s: Buffered, v: Vec3, rate: uint32): (t: Buffered)
    requires InRing(s)
    ensures InRing(t)
  {
    if s.locked then s
    else
      RingLaw(s.active);
      var c := s.(changes := Next(s.changes), changed := true);
      var shown, next := Position(sqrt, c), After(s.active);
      var written := s.buffers[next := v];
      c.(buffers := if Length(sqrt, Sub3(v, shown)) <= BANDING_DISTANCE then written[s.active := shown] else written,
         active := next,
         seenFrame := s.seenFrame || s.seenPrevious,
         timeFrame := if s.seenPrevious then rate else s.timeFrame,
         seenPrevious := true,
         elapsed := 0)
  }

  /** One read, from the fields themselves. */
  lemma ReadIs(sqrt: real -> real, s: Buffered, dt: int)
    requires InRing(s)
    ensures var from, to, t := s.buffers[if s.active == 0 then 3 else s.active - 1], s.buffers[s.active],
      Ticked(sqrt, s, dt);
      if s.changes <= 1 || Length(sqrt, Sub3(to, from)) > 18.0 || !s.seenFrame || s.timeFrame == 0
        then t == s && Position(sqrt, t) == to
      else
        var passed := s.elapsed + if dt >= 0 then dt / 2 else -(-dt / 2);
        var ratio := (passed % 0x1_0000_0000_0000_0000) as real / s.timeFrame as real;
        && t == s.(elapsed := passed)
        && Position(sqrt, t) == if ratio <= 1.2 then Add3(from, Scale3(ratio, Sub3(to, from))) else to
  {
    Neighbours(s.active);
    hide After, Before, Length, Sub3, Add3, Scale3;
    var t := Ticked(sqrt, s, dt);
    assert From(t) == From(s) == s.buffers[if s.active == 0 then 3 else s.active - 1] && To(t) == To(s);
  }

  // ---------------------------------------------------------------- continuity

  lemma LengthZero(sqrt: real -> real, v: Vec3)
    requires IsSqrt(sqrt)
    ensures Length(sqrt, v) >= 0.0 && (v == ORIGIN ==> Length(sqrt, v) == 0.0)
  {
    SumOfSquares(v);
    hide Dot3;
    if v == ORIGIN {
      assert sqrt(0.0) * sqrt(0.0) == 0.0;
      SameSquares(sqrt(0.0), 0.0);
    }
  }

  lemma DifferenceZero(u: Vec3, v: Vec3)
    ensures Sub3(u, v) == ORIGIN <==> u == v
    ensures Add3(v, Scale3(0.0, Sub3(u, v))) == v
  {
  }

  lemma NoTimePassed(s: Buffered)
    requires s.timeFrame != 0 && s.elapsed == 0
    ensures Ratio(s) == 0.0
  {
    assert s.elapsed % 0x1_0000_0000_0000_0000 == 0;
  }

  /** Where the point is right after an update: where it was shown, or at the new position. */
  lemma ShownAfter(sqrt: real -> real, s: Buffered, v: Vec3, rate: uint32)
    requires IsSqrt(sqrt) && InRing(s) && !s.locked
    ensures var t, shown := Received(sqrt, s, v, rate), Position(sqrt, s.(changes := Next(s.changes)));
      && To(t) == v && From(t) == (if Length(sqrt, Sub3(v, shown)) <= 40.0 then shown else To(s))
      && Position(sqrt, t) == if Interpolates(sqrt, t) then From(t) else v
  {
    hide After, Before;
    RingLaw(s.active);
    var t := Received(sqrt, s, v, rate);
    DifferenceZero(To(t), From(t));
    if Interpolates(sqrt, t) {
      NoTimePassed(t);
    }
    hide Length, Heading, Scale3, Ratio;
  }

  /**
   * The step that follows an update is drawn if and only if the update is within 18 units, a rate
   * is known, and one went before.
   */
  predicate Smooth(sqrt: real -> real, s: Buffered, shown: Vec3, v: Vec3, rate: uint32) {
    && Length(sqrt, Sub3(v, shown)) <= 18.0 && Next(s.changes) > 1
    && (s.seenFrame || s.seenPrevious) && (if s.seenPrevious then rate != 0 else s.timeFrame != 0)
  }

  /**
   * For any state and update, the point shown does not move when the update arrives if and only
   * if the step to it is drawn smoothly, or the update is that very point.
   */
  lemma ContinuousIff(sqrt: real -> real, s: Buffered, v: Vec3, rate: uint32)
    requires IsSqrt(sqrt) && InRing(s) && !s.locked
    ensures var shown := Position(sqrt, s.(changes := Next(s.changes)));
      Position(sqrt, Received(sqrt, s, v, rate)) == shown <==> v == shown || Smooth(sqrt, s, shown, v, rate)
  {
    var t, shown := Received(sqrt, s, v, rate), Position(sqrt, s.(changes := Next(s.changes)));
    ShownAfter(sqrt, s, v, rate);
    DifferenceZero(v, shown);
    LengthZero(sqrt, Sub3(v, shown));
    hide Length, Position, From, To;
    assert Heading(t) == Sub3(v, From(t));
  }

  // ---------------------------------------------------------------- bounds

  lemma LengthScaled(sqrt: real -> real, k: real, v: Vec3)
    requires IsSqrt(sqrt) && k >= 0.0
    ensures Length(sqrt, Scale3(k, v)) == k*Length(sqrt, v)
  {
    var d, e := Dot3(v, v), Dot3(Scale3(k, v), Scale3(k, v));
    Dot3Scale(Scale3(k, v), k, v);
    Dot3Symmetric(Scale3(k, v), v);
    Dot3Scale(v, k, v);
    SumOfSquares(v);
    SumOfSquares(Scale3(k, v));
    hide Dot3, Scale3;
    assert e == k*(k*d);
    var r := sqrt(d);
    assert (k*r)*(k*r) == k*(k*(r*r));
    assert k*r >= 0.0;
    SameSquares(sqrt(e), k*r);
  }

  lemma StepFrom(p: Vec3, v: Vec3)
    ensures Sub3(Add3(p, v), p) == v
  {
  }

  lemma AtMostScaled(r: real, n: real, m: real)
    requires 0.0 <= r <= 1.2 && n >= 0.0 && m == r*n
    ensures m <= 1.2*n
  {
    ProductNonNegative(1.2 - r, n);
  }

  lemma ProductNonNegative(a: real, b: real)
    requires a >= 0.0 && b >= 0.0
    ensures a*b >= 0.0
  {
  }

  lemma LerpBound(sqrt: real -> real, p: Vec3, h: Vec3, r: real)
    requires IsSqrt(sqrt) && 0.0 <= r <= 1.2
    ensures Length(sqrt, Sub3(Add3(p, Scale3(r, h)), p)) <= 1.2*Length(sqrt, h)
  {
    LengthZero(sqrt, h);
    StepFrom(p, Scale3(r, h));
    LengthScaled(sqrt, r, h);
    hide Length, Scale3, Add3, Sub3;
    AtMostScaled(r, Length(sqrt, h), Length(sqrt, Sub3(Add3(p, Scale3(r, h)), p)));
  }

  /** The point shown is never further than 1.2 times the step from where the step starts. */
  lemma NeverFar(sqrt: real -> real, s: Buffered)
    requires IsSqrt(sqrt) && InRing(s)
    ensures Length(sqrt, Sub3(Position(sqrt, s), From(s))) <= 1.2*Length(sqrt, Heading(s))
  {
    hide Before, Length, Scale3, Add3, Sub3, Ratio;
    var h := Heading(s);
    if Interpolates(sqrt, s) && Ratio(s) <= MAX_SCALE {
      RatioNonNegative(s);
      LerpBound(sqrt, From(s), h, Ratio(s));
    } else {
      LengthZero(sqrt, h);
    }
  }

  lemma RatioNonNegative(s: Buffered)
    requires s.timeFrame != 0
    ensures Ratio(s) >= 0.0
  {
    QuotientNonNegative((s.elapsed % 0x1_0000_0000_0000_0000) as real, s.timeFrame as real);
  }

  lemma QuotientNonNegative(a: real, b: real)
    requires a >= 0.0 && b > 0.0
    ensures a / b >= 0.0
  {
  }

  /** After exactly one step's time, the point is at the received position. */
  lemma ArrivesOnTime(sqrt: real -> real, s: Buffered)
    requires InRing(s) && s.elapsed == s.timeFrame
    ensures Position(sqrt, s) == To(s)
  {
    hide Length, Before, Add3, Scale3, Sub3;
    if Interpolates(sqrt, s) {
      assert s.elapsed % 0x1_0000_0000_0000_0000 == s.elapsed;
      SameQuotient(s.elapsed as real);
      WholeStep(From(s), To(s));
    }
  }

  lemma SameQuotient(a: real)
    requires a != 0.0
    ensures a / a == 1.0
  {
  }

  lemma WholeStep(p: Vec3, q: Vec3)
    ensures Add3(p, Scale3(1.0, Sub3(q, p))) == q
  {
  }

  // ---------------------------------------------------------------- runs

  datatype Op = Receive(v: Vec3) | Read(dt: int) | Lock | Unlock

  function Step(sqrt: real -> real, s: Buffered, op: Op, rate: uint32): (t: Buffered)
    requires InRing(s)
    ensures InRing(t)
  {
    match op
    case Receive(v) => Received(sqrt, s, v, rate)
    case Read(dt) => Ticked(sqrt, s, dt)
    case Lock => s.(locked := true)
    case Unlock => s.(locked := false)
  }

  function Run(sqrt: real -> real, s: Buffered, ops: seq<Op>, rate: uint32): (t: Buffered)
    requires InRing(s)
    ensures InRing(t)
    decreases |ops|
  {
    if ops == [] then s else Run(sqrt, Step(sqrt, s, ops[0], rate), ops[1..], rate)
  }

  /** The flags say whether one update, and whether two, have been received. */
  predicate Counted(s: Buffered, rate: uint32) {
    && s.seenPrevious == (s.changes >= 1) && s.seenFrame == (s.changes >= 2)
    && (s.seenFrame ==> s.timeFrame == rate)
  }

  lemma StepKeepsCount(sqrt: real -> real, s: Buffered, op: Op, rate: uint32)
    requires InRing(s) && Counted(s, rate) && s.changes < 0xFFFF_FFFF
    ensures var t := Step(sqrt, s, op, rate); Counted(t, rate) && t.changes <= s.changes + 1
  {
    hide Position, Interpolates, Length, After;
  }

  lemma {:induction false} RunKeepsCount(sqrt: real -> real, s: Buffered, ops: seq<Op>, rate: uint32)
    requires InRing(s) && Counted(s, rate) && s.changes + |ops| < 0x1_0000_0000
    ensures var t := Run(sqrt, s, ops, rate); Counted(t, rate) && t.changes <= s.changes + |ops|
    decreases |ops|
  {
    hide Step, Counted;
    if ops == [] {
    } else {
      StepKeepsCount(sqrt, s, ops[0], rate);
      RunKeepsCount(sqrt, Step(sqrt, s, ops[0], rate), ops[1..], rate);
    }
  }

  /** As constructed: nothing received. */
  predicate Unreceived(s: Buffered) {
    InRing(s) && s.changes == 0 && !s.seenPrevious && !s.seenFrame
  }

  /**
   * After any run of updates, reads, locks and unlocks, an update leaves the point shown where it
   * is if and only if it is that point, or it is not the first update, a rate is set, and it lies
   * within 18 units of the point.
   */
  lemma SeamlessIff(sqrt: real -> real, initial: Buffered, ops: seq<Op>, v: Vec3, rate: uint32)
    requires IsSqrt(sqrt) && Unreceived(initial) && |ops| + 1 < 0x1_0000_0000
    requires !Run(sqrt, initial, ops, rate).locked
    ensures var s := Run(sqrt, initial, ops, rate);
      var shown := Position(sqrt, s);
      Position(sqrt, Received(sqrt, s, v, rate)) == shown
      <==> v == shown || (s.changes >= 1 && rate != 0 && Length(sqrt, Sub3(v, shown)) <= 18.0)
  {
    RunKeepsCount(sqrt, initial, ops, rate);
    hide Length, Position, Received, Run;
    var s := Run(sqrt, initial, ops, rate);
    ContinuousIff(sqrt, s, v, rate);
    CountDoesNotShow(sqrt, s, rate);
  }

  /** Counting the update first does not move the point. */
  lemma CountDoesNotShow(sqrt: real -> real, s: Buffered, rate: uint32)
    requires InRing(s) && Counted(s, rate) && s.changes < 0xFFFF_FFFF
    ensures Next(s.changes) == s.changes + 1
    ensures Position(sqrt, s.(changes := Next(s.changes))) == Position(sqrt, s)
  {
    hide Length, Before, Scale3, Add3, Sub3;
    var c := s.(changes := Next(s.changes));
    assert From(c) == From(s) && To(c) == To(s) && Heading(c) == Heading(s);
  }

  // ---------------------------------------------------------------- the time between updates

  function Total(dts: seq<nat>): nat {
    if dts == [] then 0 else dts[0] + Total(dts[1..])
  }

  function Reads(dts: seq<nat>): (ops: seq<Op>)
    ensures |ops| == |dts| && forall i :: 0 <= i < |dts| ==> ops[i] == Read(dts[i])
  {
    seq(|dts|, i requires 0 <= i < |dts| => Read(dts[i]))
  }

  predicate AllEven(dts: seq<nat>) {
    forall i :: 0 <= i < |dts| ==> dts[i] % 2 == 0
  }

  /** While a step is being drawn, reads add half of their time to what has passed, and change nothing else. */
  lemma {:induction false} ReadsAddUp(sqrt: real -> real, s: Buffered, dts: seq<nat>, rate: uint32)
    requires InRing(s) && Interpolates(sqrt, s) && AllEven(dts)
    ensures Total(dts) % 2 == 0 && Run(sqrt, s, Reads(dts), rate) == s.(elapsed := s.elapsed + Total(dts) / 2)
    decreases |dts|
  {
    hide After, Before, Length, Sub3, Received, Position;
    if dts == [] {
      assert Reads(dts) == [];
    } else {
      var next := Step(sqrt, s, Read(dts[0]), rate);
      assert From(next) == From(s) && To(next) == To(s) && Heading(next) == Heading(s);
      ReadsAddUp(sqrt, next, dts[1..], rate);
      assert Reads(dts)[1..] == Reads(dts[1..]);
    }
  }

  /** What an update leaves to draw from. */
  lemma NextStep(sqrt: real -> real, s: Buffered, v: Vec3, rate: uint32)
    requires InRing(s) && !s.locked
    ensures var u := Received(sqrt, s, v, rate);
      && u.elapsed == 0 && u.changes == (s.changes + 1) % 0x1_0000_0000
      && u.seenFrame == (s.seenFrame || s.seenPrevious)
      && u.timeFrame == (if s.seenPrevious then rate else s.timeFrame)
      && u.active == (if s.active == 3 then 0 else s.active + 1) && u.buffers[u.active] == v
      && u.data == s.data && u.locked == s.locked && u.changed && u.seenPrevious
      && forall k :: 0 <= k < 4 && k != s.active && k != u.active ==> u.buffers[k] == s.buffers[k]
  {
    hide After, Before, Position, Length, Sub3, From, To;
    Neighbours(s.active);
  }

  lemma StepIs(s: Buffered)
    requires InRing(s)
    ensures From(s) == s.buffers[if s.active == 0 then 3 else s.active - 1] && To(s) == s.buffers[s.active]
  {
    Neighbours(s.active);
    hide After, Before;
  }

  lemma DrawnIs(sqrt: real -> real, s: Buffered)
    requires InRing(s)
    ensures Interpolates(sqrt, s) <==>
      s.changes > 1 && s.seenFrame && s.timeFrame != 0
        && Length(sqrt, Sub3(s.buffers[s.active], s.buffers[if s.active == 0 then 3 else s.active - 1])) <= 18.0
    ensures Ticked(sqrt, s, 0) == s
  {
    Neighbours(s.active);
    hide After, Before, Length, Sub3;
    assert From(s) == s.buffers[if s.active == 0 then 3 else s.active - 1];
  }

  /**
   * The speed of what is drawn: calls of any even times that add up to 2*t show the point that lies
   * t of the time between two updates along the step, up to 1.2 times that time, and the received
   * position from then on. At exactly that time it is the received position as well.
   */
  lemma MovesEvenly(sqrt: real -> real, s: Buffered, dts: seq<nat>, t: nat, rate: uint32)
    requires |s.buffers| == 4 && s.active < 4 && s.elapsed == 0 && s.changes > 1 && s.seenFrame && s.timeFrame != 0
    requires Length(sqrt, Sub3(s.buffers[s.active], s.buffers[if s.active == 0 then 3 else s.active - 1])) <= 18.0
    requires (forall i :: 0 <= i < |dts| ==> dts[i] % 2 == 0) && Total(dts) == 2*t && t < 0x8000_0000_0000_0000
    ensures var from, to := s.buffers[if s.active == 0 then 3 else s.active - 1], s.buffers[s.active];
      var shown := Position(sqrt, Run(sqrt, s, Reads(dts), rate));
      && (5*t <= 6*s.timeFrame ==> shown == Add3(from, Scale3(t as real / s.timeFrame as real, Sub3(to, from))))
      && (t == s.timeFrame || 5*t > 6*s.timeFrame ==> shown == to)
  {
    ReadIs(sqrt, s, 0);
    DrawnIs(sqrt, s);
    hide After, Before, Length, Sub3, Add3, Scale3, Interpolates, Position, Ticked, Run, Total, Ratio;
    ReadsAddUp(sqrt, s, dts, rate);
    var u := s.(elapsed := t);
    ReadIs(sqrt, u, 0);
    assert t % 0x1_0000_0000_0000_0000 == t;
    RatioWithin(t, s.timeFrame);
    if t == s.timeFrame {
      ArrivesOnTime(sqrt, u);
    }
  }

  lemma RatioWithin(t: nat, frame: nat)
    requires frame != 0
    ensures t as real / frame as real <= 1.2 <==> 5*t <= 6*frame
  {
    var r := t as real / frame as real;
    assert r*(frame as real) == t as real;
    if r <= 1.2 {
      ProductNonNegative(1.2 - r, frame as real);
      assert (1.2 - r)*(frame as real) == 1.2*(frame as real) - t as real;
    } else {
      assert (r - 1.2)*(frame as real) == t as real - 1.2*(frame as real);
      assert (r - 1.2)*(frame as real) > 0.0;
    }
  }

  lemma ApproachesFrom(sqrt: real -> real, s: Buffered, v: Vec3, rate: uint32, dts: seq<nat>, t: nat)
    requires IsSqrt(sqrt) && InRing(s) && Counted(s, rate) && s.changes < 0xFFFF_FFFF
    requires !s.locked && s.changes >= 1 && rate != 0 && Length(sqrt, Sub3(v, Position(sqrt, s))) <= 18.0
    requires AllEven(dts) && Total(dts) == 2*t && t < 0x8000_0000_0000_0000
    ensures var u := Received(sqrt, s, v, rate);
      var before, after := Position(sqrt, s), Position(sqrt, Run(sqrt, u, Reads(dts), rate));
      && (5*t <= 6*rate ==> after == Add3(before, Scale3(t as real / rate as real, Sub3(v, before))))
      && (t == rate || 5*t > 6*rate ==> after == v)
  {
    hide After, Before, Received, Length, Position, Run, Add3, Sub3, Scale3, IsSqrt, From, To, Interpolates;
    CountDoesNotShow(sqrt, s, rate);
    ShownAfter(sqrt, s, v, rate);
    NextStep(sqrt, s, v, rate);
    StepIs(Received(sqrt, s, v, rate));
    MovesEvenly(sqrt, Received(sqrt, s, v, rate), dts, t, rate);
  }

  /**
   * After any run of updates, reads, locks and unlocks: an update that is not the first, with a rate
   * set and within 18 units of the point shown, is approached from that point at the speed that
   * reaches it after the time the rate sets.
   */
  lemma Approaches(sqrt: real -> real, initial: Buffered, ops: seq<Op>, v: Vec3, rate: uint32, dts: seq<nat>, t: nat)
    requires IsSqrt(sqrt) && Unreceived(initial) && |ops| + 1 < 0x1_0000_0000
    requires var s := Run(sqrt, initial, ops, rate);
      !s.locked && s.changes >= 1 && rate != 0 && Length(sqrt, Sub3(v, Position(sqrt, s))) <= 18.0
    requires (forall i :: 0 <= i < |dts| ==> dts[i] % 2 == 0) && Total(dts) == 2*t && t < 0x8000_0000_0000_0000
    ensures var s := Run(sqrt, initial, ops, rate);
      var before, after := Position(sqrt, s), Position(sqrt, Run(sqrt, Received(sqrt, s, v, rate), Reads(dts), rate));
      && (5*t <= 6*rate ==> after == Add3(before, Scale3(t as real / rate as real, Sub3(v, before))))
      && (t == rate || 5*t > 6*rate ==> after == v)
  {
    RunKeepsCount(sqrt, initial, ops, rate);
    hide *;
    ApproachesFrom(sqrt, Run(sqrt, initial, ops, rate), v, rate, dts, t);
  }

  // ---------------------------------------------------------------- the class

  class CNetVarBufferedVector {
    const sqrt: real -> real
    const local: bool
    var data: Vec3
    const buffers: array<Vec3>
    var active: uint32
    var changes: uint32
    var changed: bool
    var locked: bool
    var seenPrevious: bool
    var seenFrame: bool
    var timeFrame: uint32
    var elapsed: int

    ghost predicate Valid()
      reads this
    {
      buffers.Length == 4 && active < 4
    }

    ghost function State(): Buffered
      reads this, buffers
    {
      Buffered(data, buffers[..], active, changes, changed, locked, seenPrevious, seenFrame, timeFrame, elapsed)
    }

    constructor (sqrt: real -> real, local: bool)
      ensures Valid() && fresh(buffers) && this.sqrt == sqrt && this.local == local
      ensures Unreceived(State()) && !locked && data == ORIGIN
    {
      this.sqrt, this.local := sqrt, local;
      data, active, changes, changed, locked := ORIGIN, 0, 0, true, false;
      seenPrevious, seenFrame, timeFrame, elapsed := false, false, 0, 0;
      buffers := new Vec3[4](i => ORIGIN);
    }

    method GetLive() returns (v: Vec3)
      requires Valid()
      ensures v == if local then data else To(State())
    {
      v := if local then data else buffers[active];
    }

    /** The point shown; the time that passed is only counted while a step is being drawn. */
    method GetInterpolated(dt: int) returns (v: Vec3)
      requires Valid()
      modifies this`elapsed
      ensures Valid() && State() == Ticked(sqrt, old(State()), dt)
      ensures v == if local && changes <= 1 then data else Position(sqrt, State())
      ensures changes <= 1 ==> elapsed == old(elapsed) && v == if local then data else buffers[active]
      ensures changes > 1 ==>
        var from, to := buffers[if active == 0 then 3 else active - 1], buffers[active];
        if Length(sqrt, Sub3(to, from)) > 18.0 || !seenFrame || timeFrame == 0 then v == to && elapsed == old(elapsed)
        else
          var ratio := (elapsed % 0x1_0000_0000_0000_0000) as real / timeFrame as real;
          && elapsed == old(elapsed) + (if dt >= 0 then dt / 2 else -(-dt / 2))
          && v == if ratio <= 1.2 then Add3(from, Scale3(ratio, Sub3(to, from))) else to
    {
      hide After, Before, Length, Add3, Sub3, Scale3, Position, Interpolates, Ticked;
      ReadIs(sqrt, State(), dt);
      Neighbours(active);
      if changes <= 1 {
        v := GetLive();
        return;
      }
      var from := buffers[Before(active)];
      var to := buffers[active];
      var heading := Sub3(to, from);
      if Length(sqrt, heading) > MAX_DISTANCE {
        return to;
      }
      if !seenFrame || timeFrame == 0 {
        return to;
      }
      elapsed := elapsed + Half(dt);
      var ratio := (elapsed % 0x1_0000_0000_0000_0000) as real / timeFrame as real;
      if ratio <= MAX_SCALE {
        return Add3(from, Scale3(ratio, heading));
      }
      return to;
    }

    /** The raw setter: a local variable takes the value, a replica puts it into the ring. */
    method SetRaw(v: Vec3, rate: uint32)
      requires Valid()
      modifies this, buffers
      ensures Valid()
      ensures State() ==
        if local && !old(locked) then old(State()).(data := v, changes := Next(old(changes)), changed := true)
        else Received(sqrt, old(State()), v, rate)
      ensures old(locked) ==> State() == old(State())
      ensures local && !old(locked) ==>
        State() == old(State()).(data := v, changed := true, changes := (old(changes) + 1) % 0x1_0000_0000)
      ensures !local && !old(locked) ==>
        && active == (if old(active) == 3 then 0 else old(active) + 1) && buffers[active] == v
        && data == old(data) && changed && changes == (old(changes) + 1) % 0x1_0000_0000 && elapsed == 0
        && seenPrevious && seenFrame == (old(seenFrame) || old(seenPrevious))
        && timeFrame == if old(seenPrevious) then rate else old(timeFrame)
    {
      hide Length, Position, After, Before, Ticked, Sub3, From, To, Interpolates;
      if locked {
        return;
      }
      Neighbours(active);
      var next := After(active);
      ghost var before := buffers[..];
      changes := Next(changes);
      changed := true;
      if local {
        data := v;
        return;
      }
      NoTime(sqrt, State());
      var shown := GetInterpolated(0);
      buffers[next] := v;
      if Length(sqrt, Sub3(v, shown)) <= BANDING_DISTANCE {
        buffers[active] := shown;
      }
      assert buffers[..] == if Length(sqrt, Sub3(v, shown)) <= BANDING_DISTANCE then before[next := v][active := shown]
        else before[next := v];
      active := next;
      if seenPrevious {
        seenFrame := true;
        timeFrame := rate;
      }
      seenPrevious := true;
      elapsed := 0;
    }
  }

  lemma NoTime(sqrt: real -> real, s: Buffered)
    requires InRing(s)
    ensures Ticked(sqrt, s, 0) == s
  {
    hide Interpolates;
  }
}
