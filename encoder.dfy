/** Quadrature encoder: a two-channel Gray-code state machine that counts
    edges in either direction, and a periodic snapshot that turns the
    accumulated count into a count frequency and an rpm. Pin levels and
    the millisecond clock are parameters. */
module Encoder {
  import opened IntMath

  /** The two channel levels packed as `(A << 1) | B`. */
  type ChannelState = s: nat | s < 4

  function StateOf(levelA: bool, levelB: bool): ChannelState {
    (if levelA then 2 else 0) + (if levelB then 1 else 0)
  }

  predicate ChannelA(s: ChannelState) {
    s >= 2
  }

  predicate ChannelB(s: ChannelState) {
    s % 2 == 1
  }

  /** The forward order of the quadrature states: 00, 10, 11, 01, 00. */
  function NextForward(s: ChannelState): ChannelState {
    match s
    case 0 => 2
    case 2 => 3
    case 3 => 1
    case _ => 0
  }

  lemma {:induction false} StateOfChannels(s: ChannelState)
    ensures StateOf(ChannelA(s), ChannelB(s)) == s
    ensures ChannelA(StateOf(true, true)) && ChannelB(StateOf(true, true))
  {
  }

  /** Each forward step changes exactly one channel, and four of them
      return to the start. */
  lemma {:induction false} ForwardIsGrayCycle(s: ChannelState)
    ensures (ChannelA(NextForward(s)) != ChannelA(s)) != (ChannelB(NextForward(s)) != ChannelB(s))
    ensures NextForward(NextForward(NextForward(NextForward(s)))) == s
  {
  }

  datatype Transition = Unchanged | Forward | Reverse | Skipped

  /** The transition table of `apply_new_state`, one case per current
      state. Its contract states it against the forward order and the
      channel levels instead: a skip is exactly a change of both channels
      at once. */
  function Classify(current: ChannelState, next: ChannelState): (t: Transition)
    ensures t == Unchanged <==> current == next
    ensures t == Forward <==> current != next && next == NextForward(current)
    ensures t == Reverse <==> current != next && current == NextForward(next)
    ensures t == Skipped <==> ChannelA(current) != ChannelA(next) && ChannelB(current) != ChannelB(next)
  {
    if current == next then Unchanged
    else
      match current
      case 0 => if next == 2 then Forward else if next == 1 then Reverse else Skipped
      case 2 => if next == 3 then Forward else if next == 0 then Reverse else Skipped
      case 3 => if next == 1 then Forward else if next == 2 then Reverse else Skipped
      case _ => if next == 0 then Forward else if next == 3 then Reverse else Skipped
  }

  /** What one sample adds to `count` and to `skipped_count`. */
  function CountDelta(current: ChannelState, next: ChannelState): int {
    match Classify(current, next)
    case Forward => 1
    case Reverse => -1
    case _ => 0
  }

  function SkipDelta(current: ChannelState, next: ChannelState): nat {
    if Classify(current, next) == Skipped then 1 else 0
  }

  /** Replaces channel A's bit and keeps channel B's. */
  function WithChannelA(s: ChannelState, levelA: bool): (r: ChannelState)
    ensures ChannelA(r) == levelA && ChannelB(r) == ChannelB(s)
  {
    s % 2 + (if levelA then 2 else 0)
  }

  /** Replaces channel B's bit and keeps channel A's. */
  function WithChannelB(s: ChannelState, levelB: bool): (r: ChannelState)
    ensures ChannelB(r) == levelB && ChannelA(r) == ChannelA(s)
  {
    (if s >= 2 then 2 else 0) + (if levelB then 1 else 0)
  }

  /** Sampling a single channel can never produce a skipped transition. */
  lemma {:induction false} SingleChannelNeverSkips(s: ChannelState, level: bool)
    ensures Classify(s, WithChannelA(s, level)) != Skipped
    ensures Classify(s, WithChannelB(s, level)) != Skipped
  {
  }

  /** Net count change and skip count of a sequence of samples. */
  function NetCount(s: ChannelState, samples: seq<ChannelState>): int
    decreases |samples|
  {
    if samples == [] then 0 else CountDelta(s, samples[0]) + NetCount(samples[0], samples[1..])
  }

  function Skips(s: ChannelState, samples: seq<ChannelState>): nat
    decreases |samples|
  {
    if samples == [] then 0 else SkipDelta(s, samples[0]) + Skips(samples[0], samples[1..])
  }

  /** The samples seen while the shaft turns `k` edges forward, or back. */
  function ForwardTrace(s: ChannelState, k: nat): seq<ChannelState>
    decreases k
  {
    if k == 0 then [] else [NextForward(s)] + ForwardTrace(NextForward(s), k - 1)
  }

  function PreviousState(s: ChannelState): (r: ChannelState)
    ensures NextForward(r) == s
  {
    match s
    case 2 => 0
    case 3 => 2
    case 1 => 3
    case _ => 1
  }

  function ReverseTrace(s: ChannelState, k: nat): seq<ChannelState>
    decreases k
  {
    if k == 0 then [] else [PreviousState(s)] + ReverseTrace(PreviousState(s), k - 1)
  }

  /** `k` forward edges count `+k`, `k` reverse edges count `-k`, and
      neither skips. */
  lemma {:induction false} ForwardTraceCounts(s: ChannelState, k: nat)
    ensures NetCount(s, ForwardTrace(s, k)) == k
    ensures Skips(s, ForwardTrace(s, k)) == 0
    decreases k
  {
    if k > 0 {
      var t := ForwardTrace(s, k);
      assert t[0] == NextForward(s) && t[1..] == ForwardTrace(NextForward(s), k - 1);
      ForwardTraceCounts(NextForward(s), k - 1);
    }
  }

  lemma {:induction false} ReverseTraceCounts(s: ChannelState, k: nat)
    ensures NetCount(s, ReverseTrace(s, k)) == -(k as int)
    ensures Skips(s, ReverseTrace(s, k)) == 0
    decreases k
  {
    if k > 0 {
      var t := ReverseTrace(s, k);
      assert t[0] == PreviousState(s) && t[1..] == ReverseTrace(PreviousState(s), k - 1);
      ReverseTraceCounts(PreviousState(s), k - 1);
    }
  }

  /** One full forward cycle of the four states adds exactly 4. */
  lemma FullForwardCycle(s: ChannelState)
    ensures |ForwardTrace(s, 4)| == 4 && ForwardTrace(s, 4)[3] == s
    ensures NetCount(s, ForwardTrace(s, 4)) == 4
  {
    ForwardTraceCounts(s, 4);
  }

  /** Count frequency in counts per second over `dt` milliseconds. */
  function CountFrequency(lastCount: int, dt: nat): (f: int)
    requires dt > 0
    ensures lastCount >= 0 ==> f >= 0
    ensures lastCount <= 0 ==> f <= 0
    ensures Abs(f) * dt <= Abs(lastCount) * 1000
  {
    TDiv(lastCount * 1000, dt)
  }

  /** Rotations per minute of the output shaft over `dt` milliseconds. */
  function RpmFrom(lastCount: int, dt: nat, cpr: int, num: nat, den: nat): (r: int)
    requires dt > 0 && cpr != 0 && den > 0
    ensures cpr > 0 && lastCount >= 0 ==> r >= 0
    ensures cpr > 0 && lastCount <= 0 ==> r <= 0
    ensures lastCount == 0 || num == 0 ==> r == 0
  {
    TDiv(lastCount * 60000 * num, dt * cpr * den)
  }

  /** Frequency and rpm keep the sign of the count for a positive
      counts-per-revolution, and mirror exactly when the count does. */
  lemma {:induction false} RpmFollowsDirection(lastCount: int, dt: nat, cpr: int, num: nat, den: nat)
    requires dt > 0 && cpr > 0 && den > 0
    ensures lastCount >= 0 ==> CountFrequency(lastCount, dt) >= 0 && RpmFrom(lastCount, dt, cpr, num, den) >= 0
    ensures lastCount <= 0 ==> CountFrequency(lastCount, dt) <= 0 && RpmFrom(lastCount, dt, cpr, num, den) <= 0
    ensures CountFrequency(-lastCount, dt) == -CountFrequency(lastCount, dt)
    ensures RpmFrom(-lastCount, dt, cpr, num, den) == -RpmFrom(lastCount, dt, cpr, num, den)
  {
    ScaledOdd(lastCount, 1000, dt);
    assert (-lastCount) * 60000 * num == (-lastCount) * (60000 * num);
    assert lastCount * 60000 * num == lastCount * (60000 * num);
    ScaledOdd(lastCount, 60000 * num, dt * cpr * den);
    assert dt * cpr * den > 0 by {
      MulPositive(dt, cpr);
      MulPositive(dt * cpr, den);
    }
    MulSign(lastCount, 60000 * num);
  }

  lemma MulPositive(x: int, y: int)
    requires x > 0 && y > 0
    ensures x * y > 0
  {
  }

  lemma MulSign(x: int, y: nat)
    ensures x >= 0 ==> x * y >= 0
    ensures x <= 0 ==> x * y <= 0
  {
  }

  /** Counting `revs` whole output revolutions, `revs * cpr * den` edges,
      in `dt` milliseconds reads `revs * 60000 * num / dt` rpm. */
  lemma {:induction false} RpmOfWholeRevolutions(revs: int, dt: nat, cpr: int, num: nat, den: nat)
    requires dt > 0 && cpr > 0 && den > 0
    ensures RpmFrom(revs * cpr * den, dt, cpr, num, den) == TDiv(revs * 60000 * num, dt)
  {
    assert revs * cpr * den * 60000 * num == (revs * 60000 * num) * (cpr * den);
    assert dt * cpr * den == dt * (cpr * den);
    MulPositive(cpr, den);
    TDivCancelFactor(revs * 60000 * num, dt, cpr * den);
  }

  /** One revolution of a 12-count encoder in half a second is 120 rpm. */
  lemma OneRevolutionInHalfASecond()
    ensures RpmFrom(12, 500, 12, 1, 1) == 120
    ensures CountFrequency(12, 500) == 24
  {
    RpmOfWholeRevolutions(1, 500, 12, 1, 1);
  }

  class Encoder {
    const invertDirection: bool
    const countsPerRevolution: int
    const reductionNumerator: nat
    const reductionDenominator: nat

    var channelState: ChannelState
    var count: int
    var skippedCount: nat
    var lastCount: int
    var lastFrequencyUpdate: nat
    var countFrequency: int
    var rpm: int

    /** The rpm divisor is never zero. */
    ghost predicate Valid()
      reads this
    {
      countsPerRevolution != 0 && reductionDenominator > 0
    }

    /** An encoder with unit counts per revolution and a 1:1 ratio, in the
        state its two pins read at start-up. The direction flag, which the
        source leaves unset, is off. */
    constructor Basic(levelA: bool, levelB: bool, now: nat)
      ensures Valid()
      ensures !invertDirection && countsPerRevolution == 1
      ensures reductionNumerator == 1 && reductionDenominator == 1
      ensures channelState == StateOf(levelA, levelB)
      ensures count == 0 && lastCount == 0 && skippedCount == 0
      ensures countFrequency == 0 && rpm == 0 && lastFrequencyUpdate == now
    {
      invertDirection := false;
      countsPerRevolution := 1;
      reductionNumerator, reductionDenominator := 1, 1;
      count, lastCount, skippedCount := 0, 0, 0;
      countFrequency, rpm := 0, 0;
      lastFrequencyUpdate := now;
      channelState := StateOf(levelA, levelB);
    }

    /** An encoder with a direction flag, counts per revolution and a
        reduction ratio. */
    constructor (levelA: bool, levelB: bool, now: nat, invertDirection: bool,
                 countsPerRevolution: int, reductionNumerator: nat, reductionDenominator: nat)
      requires countsPerRevolution != 0 && reductionDenominator > 0
      ensures Valid()
      ensures this.invertDirection == invertDirection
      ensures this.countsPerRevolution == countsPerRevolution
      ensures this.reductionNumerator == reductionNumerator
      ensures this.reductionDenominator == reductionDenominator
      ensures channelState == StateOf(levelA, levelB)
      ensures count == 0 && lastCount == 0 && skippedCount == 0
      ensures countFrequency == 0 && rpm == 0 && lastFrequencyUpdate == now
    {
      this.invertDirection := invertDirection;
      this.countsPerRevolution := countsPerRevolution;
      this.reductionNumerator := reductionNumerator;
      this.reductionDenominator := reductionDenominator;
      count, lastCount, skippedCount := 0, 0, 0;
      countFrequency, rpm := 0, 0;
      lastFrequencyUpdate := now;
      channelState := StateOf(levelA, levelB);
    }

    /** Feeds one sampled state into the transition table: forward edges
        count up, reverse edges down, double changes are skips, and the
        new state is kept. */
    method ApplyNewState(next: ChannelState)
      modifies this
      ensures channelState == next
      ensures count == old(count) + CountDelta(old(channelState), next)
      ensures skippedCount == old(skippedCount) + SkipDelta(old(channelState), next)
      ensures old(channelState) == next ==> count == old(count) && skippedCount == old(skippedCount)
      ensures lastCount == old(lastCount) && lastFrequencyUpdate == old(lastFrequencyUpdate)
      ensures countFrequency == old(countFrequency) && rpm == old(rpm)
    {
      if channelState != next {
        if channelState == 0 {
          if next == 2 {
            count := count + 1;
          } else if next == 1 {
            count := count - 1;
          } else {
            skippedCount := skippedCount + 1;
          }
        } else if channelState == 2 {
          if next == 3 {
            count := count + 1;
          } else if next == 0 {
            count := count - 1;
          } else {
            skippedCount := skippedCount + 1;
          }
        } else if channelState == 3 {
          if next == 1 {
            count := count + 1;
          } else if next == 2 {
            count := count - 1;
          } else {
            skippedCount := skippedCount + 1;
          }
        } else {
          if next == 0 {
            count := count + 1;
          } else if next == 3 {
            count := count - 1;
          } else {
            skippedCount := skippedCount + 1;
          }
        }
        channelState := next;
      }
    }

    /** Channel A's interrupt: only A's bit is re-read, so no skip can be
        counted. */
    method SampleChannelA(levelA: bool)
      modifies this
      ensures channelState == WithChannelA(old(channelState), levelA)
      ensures count == old(count) + CountDelta(old(channelState), channelState)
      ensures skippedCount == old(skippedCount)
      ensures lastCount == old(lastCount) && lastFrequencyUpdate == old(lastFrequencyUpdate)
      ensures countFrequency == old(countFrequency) && rpm == old(rpm)
    {
      SingleChannelNeverSkips(channelState, levelA);
      ApplyNewState(WithChannelA(channelState, levelA));
    }

    /** Channel B's interrupt: only B's bit is re-read. */
    method SampleChannelB(levelB: bool)
      modifies this
      ensures channelState == WithChannelB(old(channelState), levelB)
      ensures count == old(count) + CountDelta(old(channelState), channelState)
      ensures skippedCount == old(skippedCount)
      ensures lastCount == old(lastCount) && lastFrequencyUpdate == old(lastFrequencyUpdate)
      ensures countFrequency == old(countFrequency) && rpm == old(rpm)
    {
      SingleChannelNeverSkips(channelState, levelB);
      ApplyNewState(WithChannelB(channelState, levelB));
    }

    /** Both channels re-read at once. */
    method SampleChannels(levelA: bool, levelB: bool)
      modifies this
      ensures channelState == StateOf(levelA, levelB)
      ensures count == old(count) + CountDelta(old(channelState), channelState)
      ensures skippedCount == old(skippedCount) + SkipDelta(old(channelState), channelState)
      ensures lastCount == old(lastCount) && lastFrequencyUpdate == old(lastFrequencyUpdate)
      ensures countFrequency == old(countFrequency) && rpm == old(rpm)
    {
      ApplyNewState(StateOf(levelA, levelB));
    }

    /** The periodic snapshot: once the clock has advanced, the count since
        the last snapshot (negated for an inverted encoder) becomes
        `lastCount`, the counter restarts, and frequency and rpm are
        computed over the elapsed time. Otherwise nothing changes. */
    method ComputeRotationFrequency(now: nat)
      requires Valid()
      modifies this
      ensures Valid()
      ensures now <= old(lastFrequencyUpdate) ==>
        count == old(count) && lastCount == old(lastCount) && lastFrequencyUpdate == old(lastFrequencyUpdate)
        && countFrequency == old(countFrequency) && rpm == old(rpm)
      ensures now > old(lastFrequencyUpdate) ==>
        count == 0
        && lastCount == (if invertDirection then -old(count) else old(count))
        && countFrequency == CountFrequency(lastCount, now - old(lastFrequencyUpdate))
        && rpm == RpmFrom(lastCount, now - old(lastFrequencyUpdate), countsPerRevolution,
                          reductionNumerator, reductionDenominator)
        && lastFrequencyUpdate == now
      ensures channelState == old(channelState) && skippedCount == old(skippedCount)
    {
      if now > lastFrequencyUpdate {
        lastCount := count;
        count := 0;
        if invertDirection {
          lastCount := -lastCount;
        }
        var dt := now - lastFrequencyUpdate;
        countFrequency := TDiv(lastCount * 1000, dt);
        MulNonzero(dt, countsPerRevolution, reductionDenominator);
        rpm := TDiv(lastCount * 1000 * 60 * reductionNumerator,
                    dt * countsPerRevolution * reductionDenominator);
        lastFrequencyUpdate := now;
      }
    }

    /** The encoder's periodic task. */
    method Loop(now: nat)
      requires Valid()
      modifies this
      ensures Valid()
      ensures now <= old(lastFrequencyUpdate) ==>
        count == old(count) && lastCount == old(lastCount) && lastFrequencyUpdate == old(lastFrequencyUpdate)
        && countFrequency == old(countFrequency) && rpm == old(rpm)
      ensures now > old(lastFrequencyUpdate) ==>
        count == 0
        && lastCount == (if invertDirection then -old(count) else old(count))
        && countFrequency == CountFrequency(lastCount, now - old(lastFrequencyUpdate))
        && rpm == RpmFrom(lastCount, now - old(lastFrequencyUpdate), countsPerRevolution,
                          reductionNumerator, reductionDenominator)
        && lastFrequencyUpdate == now
      ensures channelState == old(channelState) && skippedCount == old(skippedCount)
    {
      ComputeRotationFrequency(now);
    }

    function GetRpm(): int
      reads this
    {
      rpm
    }

    function GetCountFrequency(): int
      reads this
    {
      countFrequency
    }

    function GetLastCount(): int
      reads this
    {
      lastCount
    }

    function GetCount(): int
      reads this
    {
      count
    }

    function GetSkippedCount(): nat
      reads this
    {
      skippedCount
    }

    function GetState(): ChannelState
      reads this
    {
      channelState
    }
  }

  lemma MulNonzero(x: nat, y: int, z: nat)
    requires x > 0 && y != 0 && z > 0
    ensures x * y * z != 0
  {
    if y > 0 {
      MulPositive(x, y);
      MulPositive(x * y, z);
    } else {
      MulPositive(x, -y);
      MulPositive(x * -y, z);
      assert x * y * z == -(x * -y * z);
    }
  }
}
