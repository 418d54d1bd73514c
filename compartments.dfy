/** The vocabulary shared by every SIR variant: the state (S, I, R), the
    derivative triple (dS/dt, dI/dt, dR/dt), and flows of mass between
    compartments, in terms of which the models' contracts are stated. */
module Compartments {

  /** The three compartments of an SIR population. */
  datatype Compartment = Susceptible | Infectious | Recovered

  /** A population state: the list `y` that every model unpacks as `S, I, R = y`. */
  datatype State = State(s: real, i: real, r: real)

  /** A derivative triple: the list `dydt` every model returns. */
  datatype Derivative = Derivative(ds: real, di: real, dr: real)

  /** The derivative of a population in equilibrium. */
  const Zero: Derivative := Derivative(0.0, 0.0, 0.0)

  /** Total population N = S + I + R. */
  function Total(y: State): real {
    y.s + y.i + y.r
  }

  /** Net rate of change of the total population. */
  function Sum(d: Derivative): real {
    d.ds + d.di + d.dr
  }

  /** Superposition of two derivatives, component by component. */
  function Add(d: Derivative, e: Derivative): (f: Derivative)
    ensures Sum(f) == Sum(d) + Sum(e)
  {
    Derivative(d.ds + e.ds, d.di + e.di, d.dr + e.dr)
  }

  /** The derivative contributed by a flow of `amount` per unit time out of
      `src` and into `dst`. */
  function Move(src: Compartment, dst: Compartment, amount: real): Derivative {
    Derivative(Gain(Susceptible, src, dst, amount),
               Gain(Infectious, src, dst, amount),
               Gain(Recovered, src, dst, amount))
  }

  /** An S -> I flow of x together with an I -> R flow of g, component by
      component. */
  lemma InfectionAndRecovery(x: real, g: real)
    ensures Add(Move(Susceptible, Infectious, x), Move(Infectious, Recovered, g))
              == Derivative(-x, x - g, g)
  {
  }

  /** What compartment `c` gains from a flow of `amount` from `src` to `dst`. */
  function Gain(c: Compartment, src: Compartment, dst: Compartment, amount: real): real {
    (if c == dst then amount else 0.0) - (if c == src then amount else 0.0)
  }

  /** The state with every compartment multiplied by `c`. */
  function ScaleState(c: real, y: State): State {
    State(c * y.s, c * y.i, c * y.r)
  }

  /** The derivative with every component multiplied by `c`. */
  function ScaleDerivative(c: real, d: Derivative): Derivative {
    Derivative(c * d.ds, c * d.di, c * d.dr)
  }

  /** Scaling the state scales its total. */
  lemma ScaleStateTotal(c: real, y: State)
    ensures Total(ScaleState(c, y)) == c * Total(y)
  {
  }

  /** The state as fractions of its total population: (S/N, I/N, R/N). */
  function Fractions(y: State): (f: State)
    requires Total(y) != 0.0
    ensures Total(f) == 1.0
    ensures ScaleState(Total(y), f) == y
  {
    var n := Total(y);
    var f := State(y.s / n, y.i / n, y.r / n);
    assert Total(f) * n == y.s + y.i + y.r;
    f
  }
}
