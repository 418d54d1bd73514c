/** The derivative models of utils/models.py: mass-action SIR without
    normalisation by the population, and SIR with a time-windowed vaccination
    flow from S to R.

    The logistic ramps hev(t, t_1) and hev(t, t_2) that switch vaccination on
    and off are transcendental; the model takes their values `h1` and `h2` as
    inputs. */
module UtilsModels {
  import opened Compartments
  import opened RealArith

  /** Mass-action SIR. Whatever the rates and the state, the total population
      does not change. */
  function SIR(t: real, y: State, beta: real, gamma: real): (d: Derivative)
    ensures Sum(d) == 0.0
  {
    var S, I, R := y.s, y.i, y.r;
    Derivative(-beta * S * I, beta * S * I - gamma * I, gamma * I)
  }

  /** The base model is exactly two flows: S -> I at the mass-action rate
      beta*S*I, and I -> R at the recovery rate gamma*I. */
  lemma SIRIsMassAction(t: real, y: State, beta: real, gamma: real)
    ensures SIR(t, y, beta, gamma)
              == Add(Move(Susceptible, Infectious, beta * y.s * y.i),
                     Move(Infectious, Recovered, gamma * y.i))
  {
    InfectionAndRecovery(beta * y.s * y.i, gamma * y.i);
  }

  /** With nonnegative rates and state, S never grows and R never shrinks. */
  lemma SIRSigns(t: real, y: State, beta: real, gamma: real)
    requires beta >= 0.0 && gamma >= 0.0 && y.s >= 0.0 && y.i >= 0.0
    ensures SIR(t, y, beta, gamma).ds <= 0.0 && SIR(t, y, beta, gamma).dr >= 0.0
  {
    FlowSigns(beta, gamma, y.s, y.i);
  }

  /** Without infectious individuals the population is at equilibrium. */
  lemma SIREquilibrium(t: real, y: State, beta: real, gamma: real)
    requires y.i == 0.0
    ensures SIR(t, y, beta, gamma) == Zero
  {
    FlowSigns(beta, gamma, y.s, y.i);
  }

  /** The base model does not depend on time: it is autonomous. */
  lemma SIRIsAutonomous(t1: real, t2: real, y: State, beta: real, gamma: real)
    ensures SIR(t1, y, beta, gamma) == SIR(t2, y, beta, gamma)
  {
  }

  /** The infection flow beta*S*I and the recovery flow gamma*I are
      nonnegative for nonnegative rates and state, and vanish when I = 0. */
  lemma FlowSigns(beta: real, gamma: real, S: real, I: real)
    ensures beta >= 0.0 && gamma >= 0.0 && S >= 0.0 && I >= 0.0 ==>
              beta * S * I >= 0.0 && gamma * I >= 0.0
    ensures I == 0.0 ==> beta * S * I == 0.0 && gamma * I == 0.0
  {
    if beta >= 0.0 && gamma >= 0.0 && S >= 0.0 && I >= 0.0 {
      assert beta * S >= 0.0;
    }
  }

  /** The vaccination flow vac_rate * eff * hev(t, t_1) * (1 - hev(t, t_2)). */
  function VaccinationFlow(vacRate: real, eff: real, h1: real, h2: real): real {
    vacRate * eff * h1 * (1.0 - h2)
  }

  /** Nothing flows before the window opens (h1 = 0), after it has closed
      (h2 = 1), or without doses or efficacy. */
  lemma VaccinationFlowOff(vacRate: real, eff: real, h1: real, h2: real)
    requires h1 == 0.0 || h2 == 1.0 || vacRate * eff == 0.0
    ensures VaccinationFlow(vacRate, eff, h1, h2) == 0.0
  {
  }

  /** With a nonnegative rate and efficacy and ramp values in [0, 1], the
      vaccination flow lies between 0 and the nominal rate vac_rate * eff. */
  lemma VaccinationFlowBounds(vacRate: real, eff: real, h1: real, h2: real)
    requires vacRate >= 0.0 && eff >= 0.0 && 0.0 <= h1 <= 1.0 && 0.0 <= h2 <= 1.0
    ensures 0.0 <= VaccinationFlow(vacRate, eff, h1, h2) <= vacRate * eff
  {
    var k := vacRate * eff;
    MulMonotone(vacRate, 0.0, eff);
    ScaledByFraction(k, h1);
    ScaledByFraction(k * h1, 1.0 - h2);
    assert VaccinationFlow(vacRate, eff, h1, h2) == (k * h1) * (1.0 - h2);
  }

  /** Which of the three branches of SIR_with_vaccination applies. */
  datatype VaccinationCase =
    | DrainSusceptibles     // S - v <= 0 while the window is open: S is emptied into R
    | VaccinationSuspended  // infection alone would use up S: the vaccination term is dropped
    | Vaccinating           // v moves from S to R on top of the base model

  /** The branch selection rule of SIR_with_vaccination, guard by guard, for
      the vaccination flow `v`. */
  function CaseOf(t: real, y: State, beta: real, v: real, t2: real): VaccinationCase {
    if y.s - v <= 0.0 && t < t2 then DrainSusceptibles
    else if y.s - beta * y.s * y.i - v <= 0.0 then VaccinationSuspended
    else Vaccinating
  }

  /** SIR with vaccination. `h1` and `h2` are the ramp values hev(t, t_1)
      and hev(t, t_2); `t2` is the end of the vaccination window. Vaccination
      never changes the infectious compartment's rate. */
  function SIRWithVaccination(t: real, y: State, beta: real, gamma: real,
                              vacRate: real, eff: real, t2: real,
                              h1: real, h2: real): (d: Derivative)
    ensures d.di == SIR(t, y, beta, gamma).di
  {
    var S, I, R := y.s, y.i, y.r;
    var v := VaccinationFlow(vacRate, eff, h1, h2);
    match CaseOf(t, y, beta, v, t2)
    case DrainSusceptibles =>
      Derivative(-S, beta * S * I - gamma * I, S + gamma * I)
    case VaccinationSuspended =>
      Derivative(-beta * S * I, beta * S * I - gamma * I, gamma * I)
    case Vaccinating =>
      Derivative(-beta * S * I - v, beta * S * I - gamma * I, gamma * I + v)
  }

  /** First branch: S is emptied (S + dS = 0) into R on top of recovery,
      while the infection flow into I is kept, so the components sum to
      beta*S*I rather than 0. */
  lemma DrainCase(t: real, y: State, beta: real, gamma: real,
                  vacRate: real, eff: real, t2: real, h1: real, h2: real)
    requires CaseOf(t, y, beta, VaccinationFlow(vacRate, eff, h1, h2), t2) == DrainSusceptibles
    ensures var d := SIRWithVaccination(t, y, beta, gamma, vacRate, eff, t2, h1, h2);
            d.ds == -y.s && d.dr == y.s + SIR(t, y, beta, gamma).dr &&
            Sum(d) == beta * y.s * y.i
  {
  }

  /** Second branch: when infection alone would use up S, the vaccination
      term is dropped entirely (not capped at S): the result is the base
      model. */
  lemma SuspendedCase(t: real, y: State, beta: real, gamma: real,
                      vacRate: real, eff: real, t2: real, h1: real, h2: real)
    requires CaseOf(t, y, beta, VaccinationFlow(vacRate, eff, h1, h2), t2) == VaccinationSuspended
    ensures SIRWithVaccination(t, y, beta, gamma, vacRate, eff, t2, h1, h2) == SIR(t, y, beta, gamma)
  {
  }

  /** Third branch: the base model plus an S -> R flow of v. The population
      is conserved, and S stays positive after a unit step because the
      guard S - beta*S*I - v <= 0 did not fire. */
  lemma VaccinatingCase(t: real, y: State, beta: real, gamma: real,
                        vacRate: real, eff: real, t2: real, h1: real, h2: real)
    requires CaseOf(t, y, beta, VaccinationFlow(vacRate, eff, h1, h2), t2) == Vaccinating
    ensures var d := SIRWithVaccination(t, y, beta, gamma, vacRate, eff, t2, h1, h2);
            d == Add(SIR(t, y, beta, gamma),
                     Move(Susceptible, Recovered, VaccinationFlow(vacRate, eff, h1, h2))) &&
            Sum(d) == 0.0 && y.s + d.ds > 0.0
  {
  }

  /** The population is conserved in every branch except the drain, which
      creates exactly the infection flow beta*S*I. */
  lemma VaccinationConservation(t: real, y: State, beta: real, gamma: real,
                                vacRate: real, eff: real, t2: real, h1: real, h2: real)
    ensures var d := SIRWithVaccination(t, y, beta, gamma, vacRate, eff, t2, h1, h2);
            var c := CaseOf(t, y, beta, VaccinationFlow(vacRate, eff, h1, h2), t2);
            Sum(d) == if c == DrainSusceptibles then beta * y.s * y.i else 0.0
  {
    match CaseOf(t, y, beta, VaccinationFlow(vacRate, eff, h1, h2), t2)
    case DrainSusceptibles => DrainCase(t, y, beta, gamma, vacRate, eff, t2, h1, h2);
    case VaccinationSuspended => SuspendedCase(t, y, beta, gamma, vacRate, eff, t2, h1, h2);
    case Vaccinating => VaccinatingCase(t, y, beta, gamma, vacRate, eff, t2, h1, h2);
  }

  /** Once the window has closed (t >= t_2) the drain branch is never taken,
      so the population is conserved. */
  lemma ConservedAfterWindow(t: real, y: State, beta: real, gamma: real,
                             vacRate: real, eff: real, t2: real, h1: real, h2: real)
    requires t >= t2
    ensures CaseOf(t, y, beta, VaccinationFlow(vacRate, eff, h1, h2), t2) != DrainSusceptibles
    ensures Sum(SIRWithVaccination(t, y, beta, gamma, vacRate, eff, t2, h1, h2)) == 0.0
  {
    VaccinationConservation(t, y, beta, gamma, vacRate, eff, t2, h1, h2);
  }

  /** The drain branch really does break conservation: with S = I = 1,
      R = 0, beta = 1, gamma = 0, vac_rate = 2, eff = 1, t = 0 and t_2 = 100,
      where the ramps are h1 = 1 and h2 = 0, the derivative sums to 1. */
  lemma DrainBranchIsNotConserving()
    ensures Sum(SIRWithVaccination(0.0, State(1.0, 1.0, 0.0), 1.0, 0.0, 2.0, 1.0, 100.0, 1.0, 0.0)) == 1.0
  {
    assert VaccinationFlow(2.0, 1.0, 1.0, 0.0) == 2.0;
    assert CaseOf(0.0, State(1.0, 1.0, 0.0), 1.0, 2.0, 100.0) == DrainSusceptibles;
    DrainCase(0.0, State(1.0, 1.0, 0.0), 1.0, 0.0, 2.0, 1.0, 100.0, 1.0, 0.0);
  }

  /** Without vaccination flow (no doses, no efficacy, or the ramp off) and
      with susceptibles left, the model is exactly the base SIR. */
  lemma NoVaccinationIsBaseModel(t: real, y: State, beta: real, gamma: real,
                                 vacRate: real, eff: real, t2: real, h1: real, h2: real)
    requires VaccinationFlow(vacRate, eff, h1, h2) == 0.0
    requires y.s > 0.0
    ensures SIRWithVaccination(t, y, beta, gamma, vacRate, eff, t2, h1, h2) == SIR(t, y, beta, gamma)
  {
    assert CaseOf(t, y, beta, 0.0, t2) != DrainSusceptibles;
    if CaseOf(t, y, beta, 0.0, t2) == VaccinationSuspended {
      SuspendedCase(t, y, beta, gamma, vacRate, eff, t2, h1, h2);
    } else {
      VaccinatingCase(t, y, beta, gamma, vacRate, eff, t2, h1, h2);
      var base := SIR(t, y, beta, gamma);
      assert Add(base, Move(Susceptible, Recovered, 0.0)) == base;
    }
  }

  /** With nonnegative rates, state and ramp values, S never grows and R
      never shrinks, whichever branch is taken; S is not driven below zero
      by the drain or by vaccination. */
  lemma VaccinationSigns(t: real, y: State, beta: real, gamma: real,
                         vacRate: real, eff: real, t2: real, h1: real, h2: real)
    requires beta >= 0.0 && gamma >= 0.0 && y.s >= 0.0 && y.i >= 0.0
    requires vacRate >= 0.0 && eff >= 0.0 && 0.0 <= h1 <= 1.0 && 0.0 <= h2 <= 1.0
    ensures var d := SIRWithVaccination(t, y, beta, gamma, vacRate, eff, t2, h1, h2);
            d.ds <= 0.0 && d.dr >= 0.0 &&
            (CaseOf(t, y, beta, VaccinationFlow(vacRate, eff, h1, h2), t2) != VaccinationSuspended ==>
               y.s + d.ds >= 0.0)
  {
    var v := VaccinationFlow(vacRate, eff, h1, h2);
    VaccinationFlowBounds(vacRate, eff, h1, h2);
    SIRSigns(t, y, beta, gamma);
    match CaseOf(t, y, beta, v, t2)
    case DrainSusceptibles => DrainCase(t, y, beta, gamma, vacRate, eff, t2, h1, h2);
    case VaccinationSuspended => SuspendedCase(t, y, beta, gamma, vacRate, eff, t2, h1, h2);
    case Vaccinating => VaccinatingCase(t, y, beta, gamma, vacRate, eff, t2, h1, h2);
  }
}
