/** The derivative model of sir_model/model.py: the same mass-action SIR as
    utils/models.py, with the parameters in the order (y, t, a, r) expected
    by an odeint-style solver, `a` the recovery rate and `r` the infection
    rate. The package's entry point integrates it on population fractions. */
module SirModel {
  import opened Compartments
  import UtilsModels

  /** SIR on the state `y` at time `t`, with recovery rate `a` and infection
      rate `r`: an S -> I flow of r*S*I and an I -> R flow of a*I. */
  function SIR(y: State, t: real, a: real, r: real): (d: Derivative)
    ensures d == Add(Move(Susceptible, Infectious, r * y.s * y.i),
                     Move(Infectious, Recovered, a * y.i))
    ensures Sum(d) == 0.0
  {
    var S, I, R := y.s, y.i, y.r;
    Derivative(-r * S * I, r * S * I - a * I, a * I)
  }

  /** The time argument is unused. */
  lemma SIRIsAutonomous(y: State, t1: real, t2: real, a: real, r: real)
    ensures SIR(y, t1, a, r) == SIR(y, t2, a, r)
  {
  }

  /** With r as beta and a as gamma this is exactly the SIR of utils/models.py:
      the docstring's reading of `a` as recovery and `r` as infection is the
      one the formula implements. */
  lemma AgreesWithUtilsSIR(y: State, t: real, a: real, r: real)
    ensures SIR(y, t, a, r) == UtilsModels.SIR(t, y, r, a)
  {
  }

  /** With nonnegative rates and state, S never grows and R never shrinks. */
  lemma SIRSigns(y: State, t: real, a: real, r: real)
    requires a >= 0.0 && r >= 0.0 && y.s >= 0.0 && y.i >= 0.0
    ensures SIR(y, t, a, r).ds <= 0.0 && SIR(y, t, a, r).dr >= 0.0
  {
    AgreesWithUtilsSIR(y, t, a, r);
    UtilsModels.SIRSigns(t, y, r, a);
  }

  /** Without infectious individuals the population is at equilibrium. */
  lemma SIREquilibrium(y: State, t: real, a: real, r: real)
    requires y.i == 0.0
    ensures SIR(y, t, a, r) == Zero
  {
    AgreesWithUtilsSIR(y, t, a, r);
    UtilsModels.SIREquilibrium(t, y, r, a);
  }
}
