/**
 * The crash-severity chain and the emergency flag of the client's root
 * component (client/src/App.tsx). The force that `simulateAccident` draws
 * at random is a parameter here.
 */
module App {

  datatype Severity = NONE | MILD | MODERATE | SEVERE

  /** Position of a severity in the order NONE < MILD < MODERATE < SEVERE. */
  function Rank(s: Severity): nat {
    match s
    case NONE => 0
    case MILD => 1
    case MODERATE => 2
    case SEVERE => 3
  }

  /** The thresholds of the chain, hard-coded in ascending order; the stored settings are not consulted. */
  const Thresholds: seq<real> := [7.0, 15.0, 35.0]

  /**
   * Lines 63-70: the first of `> 35`, `> 15`, `> 7` that holds decides; none
   * gives NONE. The chain agrees with counting the thresholds the force
   * strictly exceeds.
   */
  function Classify(force: real): (s: Severity)
    ensures Rank(s) == Exceeded(force, |Thresholds|)
  {
    assert Exceeded(force, 1) == (if force > 7.0 then 1 else 0);
    assert Exceeded(force, 2) == Exceeded(force, 1) + (if force > 15.0 then 1 else 0);
    assert Exceeded(force, 3) == Exceeded(force, 2) + (if force > 35.0 then 1 else 0);
    if force > 35.0 then SEVERE
    else if force > 15.0 then MODERATE
    else if force > 7.0 then MILD
    else NONE
  }

  /** How many of the first `n` thresholds the force strictly exceeds. */
  function Exceeded(force: real, n: nat): (k: nat)
    requires n <= |Thresholds|
    ensures k <= n
  {
    if n == 0 then 0 else Exceeded(force, n - 1) + (if force > Thresholds[n - 1] then 1 else 0)
  }

  /** The comparisons are strict: a force exactly at a threshold falls into the lower class. */
  lemma ClassifyBoundaries()
    ensures Classify(35.0) == MODERATE && Classify(15.0) == MILD && Classify(7.0) == NONE
  {
  }

  /** A larger force never gives a lower severity. */
  lemma ClassifyMonotone(f: real, g: real)
    requires f <= g
    ensures Rank(Classify(f)) <= Rank(Classify(g))
  {
  }

  /**
   * Line 60 draws the force from [15, 35): only MILD (at exactly 15) and
   * MODERATE can come out, never NONE or SEVERE.
   */
  lemma SimulatedForceIsMildOrModerate(force: real)
    requires 15.0 <= force < 35.0
    ensures Classify(force) == MILD <==> force == 15.0
    ensures Classify(force) == MODERATE <==> force > 15.0
  {
  }

  /** The state of the root component that the emergency path touches. */
  class AppState {
    var emergencyActive: bool
    var severity: Severity
    var countdown: int

    /** Lines 14-16: no emergency, severity NONE, a 15-second countdown. */
    constructor ()
      ensures !emergencyActive && severity == NONE && countdown == 15
    {
      emergencyActive := false;
      severity := NONE;
      countdown := 15;
    }

    /** Lines 56-74: ignored while an emergency is active; otherwise classify and raise it. */
    method SimulateAccident(force: real)
      modifies this
      ensures old(emergencyActive) ==> emergencyActive && severity == old(severity)
      ensures !old(emergencyActive) ==> emergencyActive && severity == Classify(force)
      ensures countdown == old(countdown)
    {
      if emergencyActive {
        return;
      }
      var newSeverity := NONE;
      if force > 35.0 {
        newSeverity := SEVERE;
      } else if force > 15.0 {
        newSeverity := MODERATE;
      } else if force > 7.0 {
        newSeverity := MILD;
      }
      severity := newSeverity;
      emergencyActive := true;
    }

    /** Line 143: "I'M OK" closes the emergency. */
    method OnCancel()
      modifies this`emergencyActive
      ensures !emergencyActive
    {
      emergencyActive := false;
    }

    /** Lines 144-147: the end of a dispatch closes the emergency too. */
    method OnCall()
      modifies this`emergencyActive
      ensures !emergencyActive
    {
      emergencyActive := false;
    }

    /** Line 134: the Settings page hands over the countdown it loaded or saved. */
    method SetCountdown(seconds: int)
      modifies this`countdown
      ensures countdown == seconds
    {
      countdown := seconds;
    }
  }
}
