/** The motor control loop: a saturating setpoint/output pair with a PID
    law and an anti-windup integrator. The generic base loop and its only
    refinement, the PID loop over rpm values, are one class here. */
module ControlLoop {
  import opened IntMath

  /** Rational gains `num / den` for each of the three terms. The
      coefficients are unsigned in the source. */
  datatype PidParams = PidParams(pNum: nat, pDen: nat, iNum: nat, iDen: nat, dNum: nat, dDen: nat)
  {
    /** Every term divides by its denominator, so none may be zero. */
    predicate Valid() {
      pDen > 0 && iDen > 0 && dDen > 0
    }
  }

  /** The three terms of the PID law, before saturation. The integral term
      already includes the current error. */
  function PTerm(p: PidParams, error: int): int
    requires p.Valid()
  {
    TDiv(error * p.pNum, p.pDen)
  }

  function ITerm(p: PidParams, error: int, errorIntegrated: int): int
    requires p.Valid()
  {
    TDiv((errorIntegrated + error) * p.iNum, p.iDen)
  }

  function DTerm(p: PidParams, error: int, errorPrev: int): int
    requires p.Valid()
  {
    TDiv((error - errorPrev) * p.dNum, p.dDen)
  }

  /** The unsaturated output the PID law asks for. */
  function Candidate(p: PidParams, error: int, errorPrev: int, errorIntegrated: int): int
    requires p.Valid()
  {
    PTerm(p, error) + ITerm(p, error, errorIntegrated) + DTerm(p, error, errorPrev)
  }

  /** Anti-windup rule: the integrator takes in the new error when the
      candidate output is within range, or when it is saturated but the
      error drives it back towards the range. */
  predicate IntegratorAdvances(candidate: int, error: int, outputMin: int, outputMax: int) {
    (outputMin <= candidate <= outputMax)
    || (candidate >= outputMax && error < 0)
    || (candidate <= outputMin && error > 0)
  }

  /** The integrator value after one update. */
  function NextIntegral(candidate: int, error: int, errorIntegrated: int, outputMin: int, outputMax: int): (r: int)
    requires outputMin <= outputMax
    ensures r == errorIntegrated || r == errorIntegrated + error
    ensures candidate > outputMax ==> r <= errorIntegrated
    ensures candidate < outputMin ==> r >= errorIntegrated
    ensures outputMin <= candidate <= outputMax ==> r == errorIntegrated + error
  {
    if IntegratorAdvances(candidate, error, outputMin, outputMax) then errorIntegrated + error else errorIntegrated
  }

  /** The integrator is held only while the output is saturated and the
      error pushes it further into saturation. */
  lemma IntegratorHeldOnlyWhenWindingUp(candidate: int, error: int, outputMin: int, outputMax: int)
    requires outputMin <= outputMax
    ensures !IntegratorAdvances(candidate, error, outputMin, outputMax) <==>
      (candidate > outputMax && error >= 0) || (candidate < outputMin && error <= 0)
  {
  }

  /** With no error, no history and an empty integrator, the law asks for
      zero output. */
  lemma {:induction false} CandidateAtRest(p: PidParams)
    requires p.Valid()
    ensures Candidate(p, 0, 0, 0) == 0
  {
    assert PTerm(p, 0) == TDiv(0, p.pDen);
    assert ITerm(p, 0, 0) == TDiv(0, p.iDen);
    assert DTerm(p, 0, 0) == TDiv(0, p.dDen);
  }

  /** Truncation toward zero makes the law odd: mirroring the error, its
      history and the integral mirrors the candidate output. */
  lemma {:induction false} CandidateIsOdd(p: PidParams, error: int, errorPrev: int, errorIntegrated: int)
    requires p.Valid()
    ensures Candidate(p, -error, -errorPrev, -errorIntegrated) == -Candidate(p, error, errorPrev, errorIntegrated)
  {
    ScaledOdd(error, p.pNum, p.pDen);
    assert -errorIntegrated + -error == -(errorIntegrated + error);
    ScaledOdd(errorIntegrated + error, p.iNum, p.iDen);
    assert -error - -errorPrev == -(error - errorPrev);
    ScaledOdd(error - errorPrev, p.dNum, p.dDen);
  }

  /** For a fixed history and integral, a larger error never asks for less
      output: all three gains are non-negative. */
  lemma {:induction false} CandidateMonotoneInError(p: PidParams, e1: int, e2: int, errorPrev: int, errorIntegrated: int)
    requires p.Valid() && e1 <= e2
    ensures Candidate(p, e1, errorPrev, errorIntegrated) <= Candidate(p, e2, errorPrev, errorIntegrated)
  {
    ScaledMonotone(e1, e2, p.pNum, p.pDen);
    ScaledMonotone(errorIntegrated + e1, errorIntegrated + e2, p.iNum, p.iDen);
    ScaledMonotone(e1 - errorPrev, e2 - errorPrev, p.dNum, p.dDen);
  }

  class PidLoop {
    const spMin: int
    const spMax: int
    const outputMin: int
    const outputMax: int
    const params: PidParams

    var sp: int
    var output: int
    var error: int
    var errorPrev: int
    var errorIntegrated: int

    /** Setpoint and output always sit inside their ranges. */
    ghost predicate Valid()
      reads this
    {
      spMin <= spMax && outputMin <= outputMax && params.Valid()
      && spMin <= sp <= spMax && outputMin <= output <= outputMax
    }

    /** A loop with separate setpoint and output ranges; it starts at the
        midpoint of both with no error. The history and the integrator,
        which the source leaves unset, start at zero. */
    constructor (spMin: int, spMax: int, outputMin: int, outputMax: int, params: PidParams)
      requires spMin <= spMax && outputMin <= outputMax && params.Valid()
      ensures Valid()
      ensures this.spMin == spMin && this.spMax == spMax
      ensures this.outputMin == outputMin && this.outputMax == outputMax
      ensures this.params == params
      ensures sp == Midpoint(spMin, spMax) && output == Midpoint(outputMin, outputMax)
      ensures error == 0 && errorPrev == 0 && errorIntegrated == 0
    {
      this.spMin, this.spMax := spMin, spMax;
      this.outputMin, this.outputMax := outputMin, outputMax;
      this.params := params;
      sp := Midpoint(spMin, spMax);
      output := Midpoint(outputMin, outputMax);
      error := 0;
      errorPrev, errorIntegrated := 0, 0;
    }

    /** A loop whose output range is its setpoint range. */
    constructor SameRange(spMin: int, spMax: int, params: PidParams)
      requires spMin <= spMax && params.Valid()
      ensures Valid()
      ensures this.spMin == spMin && this.spMax == spMax
      ensures outputMin == spMin && outputMax == spMax
      ensures this.params == params
      ensures sp == Midpoint(spMin, spMax) && output == sp
      ensures error == 0 && errorPrev == 0 && errorIntegrated == 0
    {
      this.spMin, this.spMax := spMin, spMax;
      this.outputMin, this.outputMax := spMin, spMax;
      this.params := params;
      sp := Midpoint(spMin, spMax);
      output := Midpoint(spMin, spMax);
      error := 0;
      errorPrev, errorIntegrated := 0, 0;
    }

    /** Back to the midpoints with no error; the history and the integrator
        are not touched. */
    method SetInitialState()
      requires Valid()
      modifies this
      ensures Valid()
      ensures sp == Midpoint(spMin, spMax) && output == Midpoint(outputMin, outputMax) && error == 0
      ensures errorPrev == old(errorPrev) && errorIntegrated == old(errorIntegrated)
    {
      sp := Midpoint(spMin, spMax);
      output := Midpoint(outputMin, outputMax);
      error := 0;
    }

    /** Saturating setpoint update; reports whether the request was in
        range. */
    method SetSetpoint(newSetpoint: int) returns (inRange: bool)
      requires Valid()
      modifies this
      ensures Valid()
      ensures inRange <==> spMin <= newSetpoint <= spMax
      ensures sp == Clamp(newSetpoint, spMin, spMax)
      ensures output == old(output) && error == old(error)
      ensures errorPrev == old(errorPrev) && errorIntegrated == old(errorIntegrated)
    {
      inRange := true;
      if newSetpoint > spMax {
        sp := spMax;
        inRange := false;
      } else if newSetpoint < spMin {
        sp := spMin;
        inRange := false;
      } else {
        sp := newSetpoint;
      }
    }

    /** Saturating output update; reports whether the value was in range. */
    method SetOutput(newOutput: int) returns (inRange: bool)
      requires Valid()
      modifies this
      ensures Valid()
      ensures inRange <==> outputMin <= newOutput <= outputMax
      ensures output == Clamp(newOutput, outputMin, outputMax)
      ensures sp == old(sp) && error == old(error)
      ensures errorPrev == old(errorPrev) && errorIntegrated == old(errorIntegrated)
    {
      inRange := true;
      if newOutput > outputMax {
        output := outputMax;
        inRange := false;
      } else if newOutput < outputMin {
        output := outputMin;
        inRange := false;
      } else {
        output := newOutput;
      }
    }

    /** One PID step on the current error: the output becomes the saturated
        candidate, the integrator follows the anti-windup rule, and the
        error is remembered for the derivative term. */
    method UpdateOutput()
      requires Valid()
      modifies this
      ensures Valid()
      ensures output == Clamp(Candidate(params, error, old(errorPrev), old(errorIntegrated)), outputMin, outputMax)
      ensures errorIntegrated == NextIntegral(Candidate(params, error, old(errorPrev), old(errorIntegrated)),
                                              error, old(errorIntegrated), outputMin, outputMax)
      ensures errorPrev == error
      ensures sp == old(sp) && error == old(error)
    {
      var newErrorIntegrated := errorIntegrated + error;
      var pTerm := TDiv(error * params.pNum, params.pDen);
      var iTerm := TDiv(newErrorIntegrated * params.iNum, params.iDen);
      var dTerm := TDiv((error - errorPrev) * params.dNum, params.dDen);
      var newOutput := pTerm + iTerm + dTerm;
      var inRange := SetOutput(newOutput);
      if inRange || (newOutput >= outputMax && error < 0) || (newOutput <= outputMin && error > 0) {
        errorIntegrated := newErrorIntegrated;
      }
      errorPrev := error;
    }

    /** One control cycle: the error is the setpoint minus the feedback,
        and the returned output is the new saturated PID output. */
    method Loop(feedback: int) returns (out: int)
      requires Valid()
      modifies this
      ensures Valid()
      ensures error == old(sp) - feedback && sp == old(sp)
      ensures out == output
      ensures out == Clamp(Candidate(params, error, old(errorPrev), old(errorIntegrated)), outputMin, outputMax)
      ensures errorIntegrated == NextIntegral(Candidate(params, error, old(errorPrev), old(errorIntegrated)),
                                              error, old(errorIntegrated), outputMin, outputMax)
      ensures errorPrev == error
    {
      error := sp - feedback;
      UpdateOutput();
      out := output;
    }

    /** Reset of the generic loop: initial state, then the new setpoint
        (saturated). */
    method ResetState(newSetpoint: int)
      requires Valid()
      modifies this
      ensures Valid()
      ensures sp == Clamp(newSetpoint, spMin, spMax)
      ensures output == Midpoint(outputMin, outputMax) && error == 0
      ensures errorPrev == old(errorPrev) && errorIntegrated == old(errorIntegrated)
    {
      SetInitialState();
      var _ := SetSetpoint(newSetpoint);
    }

    /** Reset of the PID loop: the generic reset, an empty integrator, and
        a history equal to the (zero) error, so the next derivative term
        sees no jump. */
    method Reset(newSetpoint: int)
      requires Valid()
      modifies this
      ensures Valid()
      ensures sp == Clamp(newSetpoint, spMin, spMax)
      ensures output == Midpoint(outputMin, outputMax)
      ensures error == 0 && errorPrev == 0 && errorIntegrated == 0
    {
      ResetState(newSetpoint);
      errorIntegrated := 0;
      errorPrev := error;
    }
  }
}
