/** The derivative model of the top-level model.py: SIR whose contact term is
    divided by the total population N = S + I + R.

    The source divides without a guard; at N = 0 the floating-point division
    gives no meaningful number, which the model returns as None. */
module NormalizedModel {
  import opened Wrappers
  import opened Compartments
  import opened RealArith
  import UtilsModels
  import SirModel

  /** Normalised SIR. It has a value exactly when N != 0, and then the total
      population does not change. */
  function SIR(y: State, t: real, beta: real, gamma: real): (d: Option<Derivative>)
    ensures d.None? <==> Total(y) == 0.0
    ensures d.Some? ==> Sum(d.value) == 0.0
  {
    var S, I, R := y.s, y.i, y.r;
    var N := Total(y);
    if N == 0.0 then None
    else
      var infection := beta * S * I / N;
      Some(Derivative(-infection, infection - gamma * I, gamma * I))
  }

  /** Unfolding lemma: the components of the normalised model for N != 0,
      written out so that the lemmas below can rewrite with them. */
  lemma Unfold(y: State, t: real, beta: real, gamma: real)
    requires Total(y) != 0.0
    ensures SIR(y, t, beta, gamma)
              == Some(Derivative(-(beta * y.s * y.i / Total(y)),
                                 beta * y.s * y.i / Total(y) - gamma * y.i,
                                 gamma * y.i))
  {
    var x := beta * y.s * y.i / Total(y);
    var d := SIR(y, t, beta, gamma);
    assert d.Some?;
    assert d.value.ds == -x;
    assert d.value.di == x - gamma * y.i;
    assert d.value.dr == gamma * y.i;
  }

  /** For N != 0 the model is two flows: S -> I at beta*S*I/N and I -> R at
      gamma*I. */
  lemma NormalizedIsMassAction(y: State, t: real, beta: real, gamma: real)
    requires Total(y) != 0.0
    ensures SIR(y, t, beta, gamma)
              == Some(Add(Move(Susceptible, Infectious, beta * y.s * y.i / Total(y)),
                          Move(Infectious, Recovered, gamma * y.i)))
  {
    Unfold(y, t, beta, gamma);
    InfectionAndRecovery(beta * y.s * y.i / Total(y), gamma * y.i);
  }

  /** The normalised model is the mass-action model of utils/models.py with
      the infection rate beta replaced by beta / N. */
  lemma MassActionWithScaledRate(y: State, t: real, beta: real, gamma: real)
    requires Total(y) != 0.0
    ensures SIR(y, t, beta, gamma) == Some(UtilsModels.SIR(t, y, beta / Total(y), gamma))
  {
    var N := Total(y);
    var b := beta / N;
    var x := beta * y.s * y.i / N;
    Unfold(y, t, beta, gamma);
    QuotientAsRate(beta, y.s, y.i, N);
    assert x == b * y.s * y.i;
    UtilsModels.SIRIsMassAction(t, y, b, gamma);
    InfectionAndRecovery(b * y.s * y.i, gamma * y.i);
    var u := UtilsModels.SIR(t, y, b, gamma);
    assert u.ds == -x && u.di == x - gamma * y.i && u.dr == gamma * y.i;
  }

  /** With N > 0 and nonnegative rates and state, S never grows, R never
      shrinks, and R grows at exactly the recovery flow gamma*I. */
  lemma NormalizedSigns(y: State, t: real, beta: real, gamma: real)
    requires Total(y) > 0.0 && beta >= 0.0 && gamma >= 0.0 && y.s >= 0.0 && y.i >= 0.0
    ensures SIR(y, t, beta, gamma).Some?
    ensures SIR(y, t, beta, gamma).value.ds <= 0.0
    ensures SIR(y, t, beta, gamma).value.dr == gamma * y.i >= 0.0
  {
    MassActionWithScaledRate(y, t, beta, gamma);
    assert beta / Total(y) >= 0.0;
    UtilsModels.SIRSigns(t, y, beta / Total(y), gamma);
  }

  /** Without infectious individuals (and N != 0) nothing changes. */
  lemma NormalizedEquilibrium(y: State, t: real, beta: real, gamma: real)
    requires Total(y) != 0.0 && y.i == 0.0
    ensures SIR(y, t, beta, gamma) == Some(Zero)
  {
    MassActionWithScaledRate(y, t, beta, gamma);
    UtilsModels.SIREquilibrium(t, y, beta / Total(y), gamma);
  }

  /** Degree-1 homogeneity: scaling S, I and R by c != 0 scales every
      component of the derivative by c, and keeps N != 0 exactly when it was. */
  lemma Homogeneous(y: State, t: real, beta: real, gamma: real, c: real)
    requires c != 0.0
    ensures SIR(ScaleState(c, y), t, beta, gamma).None? <==> SIR(y, t, beta, gamma).None?
    ensures SIR(y, t, beta, gamma).Some? ==>
              SIR(ScaleState(c, y), t, beta, gamma)
                == Some(ScaleDerivative(c, SIR(y, t, beta, gamma).value))
  {
    var z := ScaleState(c, y);
    var N := Total(y);
    ScaleStateTotal(c, y);
    if N != 0.0 {
      var x, g := beta * y.s * y.i / N, gamma * y.i;
      ScaledQuotient(beta, c, y.s, y.i, N);
      assert beta * z.s * z.i / Total(z) == c * x;
      assert gamma * z.i == c * g;
      Unfold(y, t, beta, gamma);
      Unfold(z, t, beta, gamma);
      var e := ScaleDerivative(c, SIR(y, t, beta, gamma).value);
      var w := SIR(z, t, beta, gamma).value;
      assert e.ds == c * -x == -(c * x) == w.ds;
      assert e.di == c * (x - g) == c * x - c * g == w.di;
      assert e.dr == c * g == w.dr;
    }
  }

  /** On population fractions (N = 1) the normalised model coincides with
      sir_model/model.py's SIR, with a as gamma and r as beta. */
  lemma AgreesWithSirModelOnFractions(y: State, t: real, beta: real, gamma: real)
    requires Total(y) != 0.0
    ensures SIR(Fractions(y), t, beta, gamma) == Some(SirModel.SIR(Fractions(y), t, gamma, beta))
  {
    var f := Fractions(y);
    Unfold(f, t, beta, gamma);
    assert Total(f) == 1.0;
    assert beta * f.s * f.i / Total(f) == beta * f.s * f.i;
    assert SirModel.SIR(f, t, gamma, beta)
        == Derivative(-beta * f.s * f.i, beta * f.s * f.i - gamma * f.i, gamma * f.i);
    assert -beta * f.s * f.i == -(beta * f.s * f.i);
  }

  /** The derivative of the normalised model on the counts y equals N times
      sir_model's derivative on the fractions y / N. This pointwise identity
      is what the normalise-then-rescale scheme relies on. */
  lemma RescaledFractions(y: State, t: real, beta: real, gamma: real)
    requires Total(y) != 0.0
    ensures SIR(y, t, beta, gamma)
              == Some(ScaleDerivative(Total(y), SirModel.SIR(Fractions(y), t, gamma, beta)))
  {
    var N := Total(y);
    var f := Fractions(y);
    AgreesWithSirModelOnFractions(y, t, beta, gamma);
    Homogeneous(f, t, beta, gamma, N);
    assert ScaleState(N, f) == y;
  }
}
